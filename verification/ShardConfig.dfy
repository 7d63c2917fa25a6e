/** Assignments of shards to groups, and the greedy loops that balance them. */
module ShardConfig {
  import opened Counting
  import opened Sorting

  type Gid = int

  /** How many shards a group has. */
  ghost function Load(shards: seq<Gid>, g: Gid): (r: nat) {
    multiset(shards)[g]
  }

  ghost predicate Assigned(shards: seq<Gid>, groups: set<Gid>) {
    forall s :: 0 <= s < |shards| ==> shards[s] in groups
  }

  /** The loads of any two of the groups differ by at most one. */
  ghost predicate Even(shards: seq<Gid>, groups: set<Gid>) {
    forall g, h :: g in groups && h in groups ==> Load(shards, g) <= Load(shards, h) + 1
  }

  ghost predicate Balanced(shards: seq<Gid>, groups: set<Gid>) {
    Assigned(shards, groups) && Even(shards, groups)
  }

  /** `g` is the first group, in the order of ids, with the least load. */
  ghost predicate IsLeast(shards: seq<Gid>, groups: set<Gid>, g: Gid) {
    g in groups && forall h :: h in groups ==>
      Load(shards, g) < Load(shards, h) || (Load(shards, g) == Load(shards, h) && g <= h)
  }

  ghost predicate IsMost(shards: seq<Gid>, groups: set<Gid>, g: Gid) {
    g in groups && forall h :: h in groups ==>
      Load(shards, g) > Load(shards, h) || (Load(shards, g) == Load(shards, h) && g <= h)
  }

  lemma LoadUpdate(shards: seq<Gid>, s: nat, to: Gid, g: Gid)
    requires s < |shards|
    ensures shards[s] == to ==> Load(shards[s := to], g) == Load(shards, g)
    ensures shards[s] != to ==>
      Load(shards[s := to], g) == Load(shards, g) + if g == to then 1 else if g == shards[s] then -1 else 0
    ensures Load(shards, shards[s]) > 0
  {
  }

  /** The sum of the squares of the loads. */
  ghost function Energy(shards: seq<Gid>, groups: seq<Gid>): (r: nat) {
    if groups == [] then 0
    else
      var n := Load(shards, groups[|groups| - 1]);
      Energy(shards, groups[..|groups| - 1]) + Square(n)
  }

  function Square(n: nat): (r: nat) {
    n * n
  }

  lemma {:induction false} EnergyAfter(shards: seq<Gid>, s: nat, to: Gid, groups: seq<Gid>)
    requires Distinct(groups) && s < |shards| && shards[s] != to
    ensures var from := shards[s];
      Energy(shards[s := to], groups) == Energy(shards, groups)
        + (if to in groups then 2 * Load(shards, to) + 1 else 0)
        + (if from in groups then 1 - 2 * Load(shards, from) else 0)
  {
    hide Square, Load;
    if groups != [] {
      var last := groups[|groups| - 1];
      var rest := groups[..|groups| - 1];
      assert groups == rest + [last];
      assert last !in rest;
      EnergyAfter(shards, s, to, rest);
      LoadUpdate(shards, s, to, last);
      Squares(Load(shards, last));
    }
  }

  lemma Squares(n: nat)
    ensures Square(n + 1) == Square(n) + 2 * n + 1
    ensures n > 0 ==> Square(n - 1) == Square(n) - 2 * n + 1
  {
  }

  datatype Outcome = Done | Refused | Fatal

  class Config {
    var num: int
    const shards: array<Gid>
    var groups: map<Gid, seq<string>>

    constructor (n: nat)
      ensures num == 0 && groups == map[] && fresh(shards) && shards.Length == n
      ensures forall s :: 0 <= s < n ==> shards[s] == 0
    {
      num, groups := 0, map[];
      shards := new Gid[n](_ => 0);
    }

    method CountShards() returns (counts: map<Gid, nat>)
      ensures forall g :: Load(shards[..], g) == if g in counts then counts[g] else 0
    {
      counts := map[];
      for s := 0 to shards.Length
        invariant forall g :: Load(shards[..s], g) == if g in counts then counts[g] else 0
      {
        var g := shards[s];
        assert shards[..s + 1] == shards[..s] + [g];
        counts := counts[g := (if g in counts then counts[g] else 0) + 1];
      }
      assert shards[..shards.Length] == shards[..];
    }

    /** The ids of the groups in increasing order. */
    method SortedGroups() returns (ids: seq<Gid>)
      ensures Distinct(ids) && (forall g :: g in ids <==> g in groups)
      ensures forall i, j :: 0 <= i < j < |ids| ==> ids[i] < ids[j]
    {
      ids := Elements(groups.Keys);
      ghost var found := ids;
      ids := Sort(ids, (a: Gid, b: Gid) => a < b);
      SortedIds(found, ids);
    }

    /** The groups with the most and the least shards, and how many these have. */
    method Analyze() returns (mg: Gid, mn: int, lg: Gid, ln: int)
      requires shards.Length < 257
      ensures groups == map[] ==> mg == -1 && mn == -1 && lg == -1 && ln == 257
      ensures groups != map[] ==> IsMost(shards[..], groups.Keys, mg) && mn == Load(shards[..], mg)
      ensures groups != map[] ==> IsLeast(shards[..], groups.Keys, lg) && ln == Load(shards[..], lg)
    {
      hide Load, Scanned;
      var counts := CountShards();
      mn, mg, ln, lg := -1, -1, 257, -1;
      var ids := SortedGroups();
      for i := 0 to |ids|
        invariant i == 0 ==> mg == -1 && mn == -1 && lg == -1 && ln == 257
        invariant i > 0 ==>
          Scanned(shards[..], ids[..i], mg, lg) && mn == Load(shards[..], mg) && ln == Load(shards[..], lg)
      {
        var n := if ids[i] in counts then counts[ids[i]] else 0;
        LoadBound(shards[..], ids[i]);
        ScanMore(shards[..], ids, i, mg, lg);
        if n < ln {
          ln, lg := n, ids[i];
        }
        if n > mn {
          mn, mg := n, ids[i];
        }
      }
      assert ids[..|ids|] == ids;
      if |ids| == 0 {
        forall g ensures g !in groups { assert g !in ids; }
      } else {
        assert ids[0] in ids;
        ScannedAll(shards[..], ids, groups.Keys, mg, lg);
      }
    }

    /** Gives every shard whose group is gone to the group that has least at that moment. */
    method Adopt()
      requires shards.Length < 257 && groups != map[]
      modifies shards
      ensures Assigned(shards[..], groups.Keys)
      ensures forall s :: 0 <= s < shards.Length && old(shards[s]) in groups ==> shards[s] == old(shards[s])
      ensures Even(old(shards[..]), groups.Keys) ==> Even(shards[..], groups.Keys)
    {
      hide Load, Even, IsMost, IsLeast;
      for s := 0 to shards.Length
        invariant forall t :: 0 <= t < s ==> shards[t] in groups
        invariant forall t :: 0 <= t < shards.Length && (t >= s || old(shards[t]) in groups) ==>
          shards[t] == old(shards[t])
        invariant Even(old(shards[..]), groups.Keys) ==> Even(shards[..], groups.Keys)
      {
        if shards[s] !in groups {
          var _, _, lg, _ := Analyze();
          ghost var was := shards[..];
          AdoptKeeps(was, s, lg, groups.Keys);
          assert lg in groups by { LeastIn(was, groups.Keys, lg); }
          shards[s] := lg;
          assert shards[..] == was[s := lg];
        }
      }
    }

    /** Moves the first shard of `mg` to `lg`. */
    method MoveOne(mg: Gid, lg: Gid) returns (ghost moved: nat)
      requires mg in shards[..]
      modifies shards
      ensures moved < shards.Length && old(shards[moved]) == mg && mg !in old(shards[..moved])
      ensures shards[..] == old(shards[..])[moved := lg]
    {
      moved := 0;
      var s := 0;
      while s < shards.Length
        invariant 0 <= s <= shards.Length && mg !in shards[..s] && mg in shards[s..] && shards[..] == old(shards[..])
      {
        if shards[s] == mg {
          shards[s] := lg;
          moved := s;
          return;
        }
        assert shards[..s + 1] == shards[..s] + [shards[s]] && shards[s..] == [shards[s]] + shards[s + 1..];
        s := s + 1;
      }
    }

    /** Assigns every shard to a group and evens out the loads. `before` are groups of which the caller
        knows that they had all the shards, evenly; nothing is moved to these. */
    method Rebalance(ghost before: set<Gid>)
      requires shards.Length < 257
      modifies shards
      ensures groups == map[] ==> forall s :: 0 <= s < shards.Length ==> shards[s] == 0
      ensures groups != map[] ==> Balanced(shards[..], groups.Keys)
      ensures groups != map[] && Even(old(shards[..]), groups.Keys) ==>
        OnlyStrays(old(shards[..]), shards[..], groups.Keys)
      ensures groups != map[] && before <= groups.Keys && Balanced(old(shards[..]), before) ==>
        NothingTo(old(shards[..]), shards[..], before)
    {
      hide Load, Even, OnlyStrays, NothingTo, Assigned, Settled, IsMost, IsLeast;
      if |groups| < 1 {
        for s := 0 to shards.Length
          invariant forall t :: 0 <= t < s ==> shards[t] == 0
        {
          shards[s] := 0;
        }
        return;
      }
      Adopt();
      ghost var adopted := shards[..];
      Adopted(old(shards[..]), adopted, groups.Keys);
      if before <= groups.Keys && Balanced(old(shards[..]), before) { Subset(old(shards[..]), before, groups.Keys); }
      var ids := SortedGroups();
      Same(adopted, before);
      while true
        invariant Assigned(shards[..], groups.Keys)
        invariant Even(adopted, groups.Keys) ==> shards[..] == adopted
        invariant Settled(adopted, groups.Keys, before) ==>
          Settled(shards[..], groups.Keys, before) && NothingTo(adopted, shards[..], before)
        decreases Energy(shards[..], ids)
      {
        var mg, mn, lg, ln := Analyze();
        EvenIff(shards[..], groups.Keys, mg, lg);
        if mn < ln + 2 {
          break;
        }
        ghost var was := shards[..];
        ghost var s := MoveOne(mg, lg);
        MoveKeeps(was, s, mg, lg, groups.Keys, ids);
        if Settled(adopted, groups.Keys, before) { MoveSettled(adopted, was, s, mg, lg, groups.Keys, before); }
      }
    }

    /** Does one of the groups already use one of these servers? */
    method Uses(servers: seq<string>) returns (r: bool)
      ensures r <==> exists x :: x in groups && Clash(groups[x], servers)
    {
      var rest := groups.Keys;
      while rest != {}
        invariant rest <= groups.Keys
        invariant forall x :: x in groups && x !in rest ==> !Clash(groups[x], servers)
        decreases |rest|
      {
        var xgid := Any(rest);
        for i := 0 to |groups[xgid]|
          invariant forall k :: 0 <= k < i ==> groups[xgid][k] !in servers
        {
          for j := 0 to |servers|
            invariant groups[xgid][i] !in servers[..j]
          {
            if groups[xgid][i] == servers[j] {
              return true;
            }
          }
        }
        rest := rest - {xgid};
      }
      r := false;
    }

    method Join(servers: map<Gid, seq<string>>) returns (r: Outcome)
      modifies this
      ensures r == Done <==> Joinable(old(groups), servers)
      ensures r == Done ==> groups == old(groups) + servers && num == old(num) + 1
      ensures r != Done ==> num == old(num)
      ensures r == Refused ==> exists gid :: gid in servers && gid in old(groups)
      ensures old(groups).Keys <= groups.Keys <= old(groups).Keys + servers.Keys
    {
      hide Clash, Joined, Fits;
      var changed := false;
      var rest := servers.Keys;
      JoinedFacts(groups, servers, rest);
      while rest != {}
        invariant rest <= servers.Keys && (changed <==> rest != servers.Keys) && num == old(num)
        invariant groups == Joined(old(groups), servers, rest)
        invariant forall gid :: gid in servers && gid !in rest ==> Fits(old(groups), servers, gid, rest)
        decreases |rest|
      {
        var gid := Any(rest);
        JoinedFacts(old(groups), servers, rest);
        if gid in groups {
          NotNew(old(groups), servers, gid);
          return Refused;
        }
        var used := Uses(servers[gid]);
        if used {
          NotJoinable(old(groups), servers, groups, gid);
          return Fatal;
        }
        JoinOne(old(groups), servers, groups, gid, rest);
        groups := groups[gid := servers[gid]];
        changed := true;
        rest := rest - {gid};
      }
      if !changed {
        return Fatal;
      }
      JoinedFacts(old(groups), servers, rest);
      num := num + 1;
      r := Done;
    }

    method Leave(gids: seq<Gid>) returns (r: Outcome)
      modifies this
      ensures r == Done <==> Leavable(old(groups), gids)
      ensures r == Done ==> groups == old(groups) - (set g | g in gids) && num == old(num) + 1
      ensures r != Done ==> num == old(num)
      ensures r == Fatal <==> gids == []
      ensures groups.Keys <= old(groups).Keys
    {
      for i := 0 to |gids|
        invariant groups == old(groups) - (set g | g in gids[..i]) && num == old(num)
        invariant Distinct(gids[..i]) && forall j :: 0 <= j < i ==> gids[j] in old(groups)
      {
        if gids[i] !in groups {
          CannotLeave(old(groups), gids, i);
          return Refused;
        }
        assert gids[..i + 1] == gids[..i] + [gids[i]];
        groups := groups - {gids[i]};
      }
      assert gids[..|gids|] == gids;
      if |gids| == 0 {
        return Fatal;
      }
      num := num + 1;
      r := Done;
    }

    /** After a join the loads are even, and from an even start shards moved to joining groups only. */
    method JoinBalance(servers: map<Gid, seq<string>>) returns (r: Outcome)
      requires shards.Length < 257
      modifies this, shards
      ensures r == Done <==> Joinable(old(groups), servers)
      ensures r == Done ==> groups == old(groups) + servers && num == old(num) + 1 && Balanced(shards[..], groups.Keys)
      ensures r == Done && Balanced(old(shards[..]), old(groups).Keys) ==>
        forall s :: 0 <= s < shards.Length && shards[s] != old(shards[s]) ==> shards[s] in servers
      ensures r != Done ==> shards[..] == old(shards[..])
    {
      r := Join(servers);
      if r != Done {
        return;
      }
      assert groups.Keys == old(groups).Keys + servers.Keys;
      Rebalance(old(groups).Keys);
    }

    /** After a leave with a group remaining the loads are even, and from an even start exactly the shards
        of the leaving groups moved. */
    method LeaveBalance(gids: seq<Gid>) returns (r: Outcome)
      requires shards.Length < 257
      modifies this, shards
      ensures r == Done <==> Leavable(old(groups), gids)
      ensures r == Done ==> groups == old(groups) - (set g | g in gids) && num == old(num) + 1
      ensures r == Done && groups != map[] ==> Balanced(shards[..], groups.Keys)
      ensures r == Done && groups != map[] && Balanced(old(shards[..]), old(groups).Keys) ==>
        forall s :: 0 <= s < shards.Length ==> (shards[s] != old(shards[s]) <==> old(shards[s]) in gids)
      ensures r == Done && groups == map[] ==> forall s :: 0 <= s < shards.Length ==> shards[s] == 0
      ensures r != Done ==> shards[..] == old(shards[..])
    {
      r := Leave(gids);
      if r != Done {
        return;
      }
      assert groups.Keys == old(groups).Keys - (set g | g in gids);
      assert Even(old(shards[..]), old(groups).Keys) ==> Even(old(shards[..]), groups.Keys);
      Rebalance({});
    }
  }

  /** Distinct members leave. */
  ghost predicate Leavable(groups: map<Gid, seq<string>>, gids: seq<Gid>) {
    gids != [] && Distinct(gids) && forall i :: 0 <= i < |gids| ==> gids[i] in groups
  }

  lemma CannotLeave(groups: map<Gid, seq<string>>, gids: seq<Gid>, i: nat)
    requires i < |gids| && (gids[i] !in groups || gids[i] in gids[..i])
    ensures !Leavable(groups, gids)
  {
    if gids[i] in gids[..i] {
      var j :| 0 <= j < i && gids[..i][j] == gids[i];
      assert gids[j] == gids[i];
    }
  }

  ghost predicate Clash(a: seq<string>, b: seq<string>) {
    exists i :: 0 <= i < |a| && a[i] in b
  }

  /** Nothing stands against the join: it brings groups, none of them a member, no server in two groups. */
  ghost predicate Joinable(groups: map<Gid, seq<string>>, servers: map<Gid, seq<string>>) {
    servers != map[] && forall gid :: gid in servers ==> Fits(groups, servers, gid, {})
  }

  /** The joining group is new and shares no server with a member or with a joining group outside `rest`. */
  ghost predicate Fits(groups: map<Gid, seq<string>>, servers: map<Gid, seq<string>>, gid: Gid, rest: set<Gid>)
    requires gid in servers
  {
    && gid !in groups
    && (forall x :: x in groups ==> !Clash(groups[x], servers[gid]))
    && (forall x :: x in servers && x !in rest && x != gid ==> !Clash(servers[x], servers[gid]))
  }

  lemma ClashBoth(a: seq<string>, b: seq<string>)
    ensures Clash(a, b) <==> Clash(b, a)
  {
    if Clash(a, b) {
      var i :| 0 <= i < |a| && a[i] in b;
      var j :| 0 <= j < |b| && b[j] == a[i];
      assert b[j] in a;
    }
    if Clash(b, a) {
      var i :| 0 <= i < |b| && b[i] in a;
      var j :| 0 <= j < |a| && a[j] == b[i];
      assert a[j] in b;
    }
  }

  lemma NotNew(groups: map<Gid, seq<string>>, servers: map<Gid, seq<string>>, gid: Gid)
    requires gid in servers && gid in groups
    ensures !Joinable(groups, servers)
  {
  }

  lemma NotJoinable(groups: map<Gid, seq<string>>, servers: map<Gid, seq<string>>, now: map<Gid, seq<string>>, gid: Gid)
    requires gid in servers && gid !in now && exists x :: x in now && Clash(now[x], servers[gid])
    requires forall x :: x in now ==> (x in groups && now[x] == groups[x]) || (x in servers && now[x] == servers[x])
    ensures !Joinable(groups, servers)
  {
    hide Clash;
    var x :| x in now && Clash(now[x], servers[gid]);
  }

  /** The groups after those of `servers` outside `rest` have joined. */
  ghost function Joined(groups: map<Gid, seq<string>>, servers: map<Gid, seq<string>>,
      rest: set<Gid>): (r: map<Gid, seq<string>>) {
    groups + map g | g in servers && g !in rest :: servers[g]
  }

  lemma JoinedFacts(groups: map<Gid, seq<string>>, servers: map<Gid, seq<string>>, rest: set<Gid>)
    ensures groups.Keys <= Joined(groups, servers, rest).Keys <= groups.Keys + servers.Keys
    ensures forall x :: x in Joined(groups, servers, rest) && x !in groups ==> x !in rest
    ensures var now := Joined(groups, servers, rest);
      forall x :: x in now ==> (x in groups && now[x] == groups[x]) || (x in servers && now[x] == servers[x])
    ensures rest == servers.Keys ==> Joined(groups, servers, rest) == groups
    ensures rest == {} ==> Joined(groups, servers, rest) == groups + servers
  {
    if rest == {} { assert (map g | g in servers && g !in rest :: servers[g]) == servers; }
  }

  lemma JoinOne(groups: map<Gid, seq<string>>, servers: map<Gid, seq<string>>, now: map<Gid, seq<string>>, gid: Gid,
      rest: set<Gid>)
    requires gid in rest && rest <= servers.Keys && gid !in now && forall x :: x in now ==> !Clash(now[x], servers[gid])
    requires now == Joined(groups, servers, rest)
    requires forall g :: g in servers && g !in rest ==> Fits(groups, servers, g, rest)
    ensures now[gid := servers[gid]] == Joined(groups, servers, rest - {gid})
    ensures forall g :: g in servers && g !in rest - {gid} ==> Fits(groups, servers, g, rest - {gid})
  {
    hide Clash;
    forall g | g in servers && g !in rest - {gid} ensures Fits(groups, servers, g, rest - {gid}) {
      forall x | x in servers && x !in rest - {gid} && x != g ensures !Clash(servers[x], servers[g]) {
        if g == gid {
          assert now[x] == servers[x];
        } else if x == gid {
          assert now[g] == servers[g];
          ClashBoth(servers[gid], servers[g]);
        } else {
          assert Fits(groups, servers, g, rest);
        }
      }
      if g == gid {
        forall x | x in groups ensures !Clash(groups[x], servers[g]) {
          assert !(x in servers && x !in rest);
          assert now[x] == groups[x];
        }
      } else {
        assert Fits(groups, servers, g, rest);
      }
    }
  }

  /** Exactly the shards of groups that are gone have moved. */
  ghost predicate OnlyStrays(a: seq<Gid>, b: seq<Gid>, groups: set<Gid>) {
    |a| == |b| && forall s :: 0 <= s < |a| ==> (a[s] != b[s] <==> a[s] !in groups)
  }

  /** No shard has moved to one of these groups. */
  ghost predicate NothingTo(a: seq<Gid>, b: seq<Gid>, before: set<Gid>) {
    |a| == |b| && forall s :: 0 <= s < |a| && a[s] != b[s] ==> b[s] !in before
  }

  /** The old groups are even among themselves, and no new group has overtaken them by more than one. */
  ghost predicate Settled(shards: seq<Gid>, groups: set<Gid>, before: set<Gid>) {
    && before <= groups && Even(shards, before)
    && forall g, h :: g in groups - before && h in before ==> Load(shards, g) <= Load(shards, h) + 1
  }

  lemma LeastIn(shards: seq<Gid>, groups: set<Gid>, lg: Gid)
    requires IsLeast(shards, groups, lg)
    ensures lg in groups
  {
  }

  lemma Adopted(a: seq<Gid>, b: seq<Gid>, groups: set<Gid>)
    requires |a| == |b| && Assigned(b, groups) && forall s :: 0 <= s < |a| && a[s] in groups ==> b[s] == a[s]
    ensures OnlyStrays(a, b, groups) && (Assigned(a, groups) ==> a == b)
  {
  }

  lemma AdoptKeeps(shards: seq<Gid>, s: nat, lg: Gid, groups: set<Gid>)
    requires IsLeast(shards, groups, lg) && s < |shards| && shards[s] !in groups
    ensures Even(shards, groups) ==> Even(shards[s := lg], groups)
  {
    forall g
      ensures g in groups ==> Load(shards[s := lg], g) == if g == lg then Load(shards, g) + 1 else Load(shards, g)
    {
      LoadUpdate(shards, s, lg, g);
    }
    hide Load;
  }

  /** The loads are even exactly when the greatest and the least are less than two apart. */
  lemma EvenIff(shards: seq<Gid>, groups: set<Gid>, mg: Gid, lg: Gid)
    requires IsMost(shards, groups, mg) && IsLeast(shards, groups, lg)
    ensures Even(shards, groups) <==> Load(shards, mg) < Load(shards, lg) + 2
    ensures Load(shards, mg) > 0 ==> mg in shards
  {
    hide Load;
    if Load(shards, mg) < Load(shards, lg) + 2 {
      forall g, h | g in groups && h in groups ensures Load(shards, g) <= Load(shards, h) + 1 {
        assert Load(shards, mg) >= Load(shards, g) && Load(shards, lg) <= Load(shards, h);
      }
    }
    assert Load(shards, mg) > 0 ==> mg in shards by { Occurs(shards, mg); }
  }

  lemma Occurs(shards: seq<Gid>, g: Gid)
    ensures Load(shards, g) > 0 <==> g in shards
  {
    assert g in multiset(shards) <==> g in shards;
  }

  lemma Same(shards: seq<Gid>, before: set<Gid>)
    ensures NothingTo(shards, shards, before)
  {
  }

  /** All shards at the old groups, evenly: the new groups have none. */
  lemma Subset(shards: seq<Gid>, before: set<Gid>, groups: set<Gid>)
    requires Balanced(shards, before) && before <= groups
    ensures Assigned(shards, groups) && Settled(shards, groups, before)
  {
    forall g | g !in before ensures Load(shards, g) == 0 { Occurs(shards, g); }
    hide Load;
  }

  lemma MoveKeeps(shards: seq<Gid>, s: nat, mg: Gid, lg: Gid, groups: set<Gid>, ids: seq<Gid>)
    requires IsMost(shards, groups, mg) && IsLeast(shards, groups, lg) && Load(shards, mg) >= Load(shards, lg) + 2
    requires s < |shards| && shards[s] == mg && Assigned(shards, groups) && Distinct(ids)
    requires forall g :: g in ids <==> g in groups
    ensures Assigned(shards[s := lg], groups) && Energy(shards[s := lg], ids) < Energy(shards, ids)
  {
    hide Load, Energy;
    EnergyAfter(shards, s, lg, ids);
  }

  /** The group with least is a new one, so the old groups get nothing. */
  lemma MoveSettled(start: seq<Gid>, shards: seq<Gid>, s: nat, mg: Gid, lg: Gid, groups: set<Gid>, before: set<Gid>)
    requires IsMost(shards, groups, mg) && IsLeast(shards, groups, lg) && Load(shards, mg) >= Load(shards, lg) + 2
    requires s < |shards| && shards[s] == mg && Settled(shards, groups, before) && NothingTo(start, shards, before)
    ensures Settled(shards[s := lg], groups, before) && NothingTo(start, shards[s := lg], before)
  {
    forall g
      ensures Load(shards[s := lg], g) == Load(shards, g) + if g == lg then 1 else if g == mg then -1 else 0
    {
      LoadUpdate(shards, s, lg, g);
    }
    hide Load;
    assert lg !in before;
  }

  /** What the scan knows after a prefix of the groups. */
  ghost predicate Scanned(shards: seq<Gid>, ids: seq<Gid>, mg: Gid, lg: Gid) {
    && mg in ids && lg in ids
    && (forall i :: 0 <= i < |ids| ==>
          Load(shards, mg) > Load(shards, ids[i]) || (Load(shards, mg) == Load(shards, ids[i]) && mg <= ids[i]))
    && (forall i :: 0 <= i < |ids| ==>
          Load(shards, lg) < Load(shards, ids[i]) || (Load(shards, lg) == Load(shards, ids[i]) && lg <= ids[i]))
  }

  lemma ScanMore(shards: seq<Gid>, ids: seq<Gid>, i: nat, mg: Gid, lg: Gid)
    requires i < |ids| && forall j, k :: 0 <= j < k < |ids| ==> ids[j] < ids[k]
    requires i > 0 ==> Scanned(shards, ids[..i], mg, lg)
    ensures i == 0 ==> Scanned(shards, ids[..1], ids[0], ids[0])
    ensures i > 0 ==> Scanned(shards, ids[..i + 1],
      if Load(shards, ids[i]) > Load(shards, mg) then ids[i] else mg,
      if Load(shards, ids[i]) < Load(shards, lg) then ids[i] else lg)
  {
    hide Load;
    assert ids[..i + 1] == ids[..i] + [ids[i]];
  }

  lemma ScannedAll(shards: seq<Gid>, ids: seq<Gid>, groups: set<Gid>, mg: Gid, lg: Gid)
    requires Scanned(shards, ids, mg, lg) && forall g :: g in ids <==> g in groups
    ensures IsMost(shards, groups, mg) && IsLeast(shards, groups, lg)
  {
    hide Load;
  }

  lemma LoadBound(shards: seq<Gid>, g: Gid)
    ensures Load(shards, g) <= |shards|
  {
    assert |multiset(shards)| == |shards|;
    assert multiset(shards)[g := 0] + multiset{g}[g := Load(shards, g)] == multiset(shards);
  }

  lemma SortedIds(found: seq<Gid>, ids: seq<Gid>)
    requires Distinct(found) && multiset(ids) == multiset(found) && SortedBy(ids, (a: Gid, b: Gid) => a < b)
    ensures Distinct(ids) && (forall g :: g in ids <==> g in found)
    ensures forall i, j :: 0 <= i < j < |ids| ==> ids[i] < ids[j]
  {
    SameDistinct(found, ids);
    forall i, j | 0 <= i < j < |ids| ensures ids[i] < ids[j] {}
  }
}
