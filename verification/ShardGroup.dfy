/** One replica group of the sharded store: the operations its replicated log executes.
    The functions say what an operation does to the group's state; the methods of `KVServer`
    do it in place. */
module ShardGroup {
  import opened VersionedMap

  type Shard = nat

  datatype Group = Group(kv: Store, frozen: map<Shard, bool>, maxNum: map<Shard, nat>, migrated: map<Shard, bool>)

  const FRESH := Group(map[], map[], map[], map[])

  /** A reply with the state of a shard; `state` is empty where the server leaves it unset. */
  datatype FreezeReply = FreezeReply(err: Err, state: Store)

  predicate Flag(flags: map<Shard, bool>, s: Shard) {
    s in flags && flags[s]
  }

  /** The shard is neither frozen nor handed over. */
  predicate Accepts(g: Group, s: Shard) {
    !Flag(g.migrated, s) && !Flag(g.frozen, s)
  }

  /** The number of the last migration that touched the shard. */
  function MaxNum(g: Group, s: Shard): (r: int)
    ensures r >= -1
  {
    if s in g.maxNum then g.maxNum[s] else -1
  }

  /** The part of a store that belongs to one shard. */
  function Part(kv: Store, shardOf: string -> Shard, s: Shard): (r: Store) {
    map k | k in kv && shardOf(k) == s :: kv[k]
  }

  /** A store without one shard. */
  function Without(kv: Store, shardOf: string -> Shard, s: Shard): (r: Store) {
    map k | k in kv && shardOf(k) != s :: kv[k]
  }

  function Execute(g: Group, shardOf: string -> Shard, op: Op): (r: (Group, Reply)) {
    if Accepts(g, shardOf(op.key)) then (g.(kv := After(g.kv, op)), Answer(g.kv, op))
    else (g, Reply(ErrWrongGroup, "", 0))
  }

  function Freeze(g: Group, shardOf: string -> Shard, s: Shard, num: nat): (r: (Group, FreezeReply)) {
    if num < MaxNum(g, s) then (g, FreezeReply(ErrMaybe, map[]))
    else if num == MaxNum(g, s) then
      (g, FreezeReply(OK, if Flag(g.migrated, s) then map[] else Part(g.kv, shardOf, s)))
    else (g.(frozen := g.frozen[s := true], maxNum := g.maxNum[s := num]), FreezeReply(OK, Part(g.kv, shardOf, s)))
  }

  function Install(g: Group, s: Shard, state: Store, num: nat): (r: (Group, Err)) {
    if num < MaxNum(g, s) then (g, ErrMaybe)
    else if num == MaxNum(g, s) then (g, OK)
    else (Group(g.kv + state, g.frozen - {s}, g.maxNum[s := num], g.migrated - {s}), OK)
  }

  function Delete(g: Group, shardOf: string -> Shard, s: Shard, num: nat): (r: (Group, Err)) {
    if num < MaxNum(g, s) then (g, ErrMaybe)
    else if num == MaxNum(g, s) then (g.(frozen := g.frozen - {s}, migrated := g.migrated[s := true]), OK)
    else (Group(Without(g.kv, shardOf, s), g.frozen - {s}, g.maxNum[s := num], g.migrated[s := true]), OK)
  }

  /** OK means that no later migration of the shard has come to the group, ErrMaybe that one has. */
  lemma AnswersTell(g: Group, shardOf: string -> Shard, s: Shard, num: nat, state: Store)
    ensures var (g', reply) := Freeze(g, shardOf, s, num);
      && (reply.err == OK <==> MaxNum(g', s) == num) && (reply.err == ErrMaybe <==> MaxNum(g', s) > num)
    ensures var (g', err) := Install(g, s, state, num);
      && (err == OK <==> MaxNum(g', s) == num) && (err == ErrMaybe <==> MaxNum(g', s) > num)
    ensures var (g', err) := Delete(g, shardOf, s, num);
      && (err == OK <==> MaxNum(g', s) == num) && (err == ErrMaybe <==> MaxNum(g', s) > num)
  {
  }

  class KVServer {
    var keyValue: Store
    var frozenShards: map<Shard, bool>
    var maxShardNum: map<Shard, nat>
    var migratedShards: map<Shard, bool>
    const shardOf: string -> Shard

    constructor (shardOf: string -> Shard)
      ensures Value() == FRESH && this.shardOf == shardOf
    {
      keyValue, frozenShards, maxShardNum, migratedShards := map[], map[], map[], map[];
      this.shardOf := shardOf;
    }

    function Value(): (r: Group)
      reads this
    {
      Group(keyValue, frozenShards, maxShardNum, migratedShards)
    }

    method DoOp(req: Op) returns (reply: Reply)
      modifies this
      ensures (Value(), reply) == Execute(old(Value()), shardOf, req)
    {
      var shard := shardOf(req.key);
      if shard in migratedShards && migratedShards[shard] {
        return Reply(ErrWrongGroup, "", 0);
      }
      if shard in frozenShards && frozenShards[shard] {
        return Reply(ErrWrongGroup, "", 0);
      }
      match req
      case Get(key) =>
        if key !in keyValue {
          reply := Reply(ErrNoKey, "", 0);
        } else {
          reply := Reply(OK, keyValue[key].value, keyValue[key].version);
        }
      case Put(key, value, version) =>
        if key !in keyValue {
          if version == 0 {
            keyValue := keyValue[key := Entry(value, 1)];
            reply := PutErr(OK);
          } else {
            reply := PutErr(ErrVersion);
          }
        } else {
          if version != keyValue[key].version {
            reply := PutErr(ErrVersion);
          } else {
            keyValue := keyValue[key := Entry(value, keyValue[key].version + 1)];
            reply := PutErr(OK);
          }
        }
    }

    /** The loop over all pairs that collects those of one shard. */
    method Collect(s: Shard) returns (shardData: Store)
      ensures shardData == Part(keyValue, shardOf, s)
    {
      shardData := map[];
      var rest := keyValue.Keys;
      while rest != {}
        invariant rest <= keyValue.Keys
        invariant shardData == map k | k in keyValue && k !in rest && shardOf(k) == s :: keyValue[k]
        decreases |rest|
      {
        var key :| key in rest;
        if shardOf(key) == s {
          shardData := shardData[key := keyValue[key]];
        }
        rest := rest - {key};
      }
    }

    /** The loop that writes every pair of an installed shard. */
    method Overlay(state: Store)
      modifies this`keyValue
      ensures keyValue == old(keyValue) + state
    {
      var rest := state.Keys;
      while rest != {}
        invariant rest <= state.Keys
        invariant forall k :: k in keyValue <==> k in old(keyValue) || (k in state && k !in rest)
        invariant forall k :: k in keyValue ==>
          keyValue[k] == if k in state && k !in rest then state[k] else old(keyValue)[k]
        decreases |rest|
      {
        var key :| key in rest;
        keyValue := keyValue[key := state[key]];
        rest := rest - {key};
      }
    }

    /** The loop that deletes every pair of one shard. */
    method Erase(s: Shard)
      modifies this`keyValue
      ensures keyValue == Without(old(keyValue), shardOf, s)
    {
      var rest := keyValue.Keys;
      while rest != {}
        invariant rest <= old(keyValue).Keys
        invariant forall k :: k in keyValue <==> k in old(keyValue) && (k in rest || shardOf(k) != s)
        invariant forall k :: k in keyValue ==> keyValue[k] == old(keyValue)[k]
        decreases |rest|
      {
        var key :| key in rest;
        if shardOf(key) == s {
          keyValue := keyValue - {key};
        }
        rest := rest - {key};
      }
    }

    method DoFreezeShard(s: Shard, num: nat) returns (reply: FreezeReply)
      modifies this
      ensures (Value(), reply) == Freeze(old(Value()), shardOf, s, num)
    {
      if s in maxShardNum {
        if num < maxShardNum[s] {
          return FreezeReply(ErrMaybe, map[]);
        } else if num == maxShardNum[s] {
          if s in migratedShards && migratedShards[s] {
            return FreezeReply(OK, map[]);
          }
          var again := Collect(s);
          return FreezeReply(OK, again);
        }
      }
      frozenShards := frozenShards[s := true];
      maxShardNum := maxShardNum[s := num];
      var shardData := Collect(s);
      reply := FreezeReply(OK, shardData);
    }

    method DoInstallShard(s: Shard, state: Store, num: nat) returns (err: Err)
      modifies this
      ensures (Value(), err) == Install(old(Value()), s, state, num)
    {
      if s in maxShardNum {
        if num < maxShardNum[s] {
          return ErrMaybe;
        } else if num == maxShardNum[s] {
          return OK;
        }
      }
      maxShardNum := maxShardNum[s := num];
      migratedShards := migratedShards - {s};
      Overlay(state);
      frozenShards := frozenShards - {s};
      err := OK;
    }

    method DoDeleteShard(s: Shard, num: nat) returns (err: Err)
      modifies this
      ensures (Value(), err) == Delete(old(Value()), shardOf, s, num)
    {
      if s in maxShardNum {
        if num < maxShardNum[s] {
          return ErrMaybe;
        } else if num == maxShardNum[s] {
          migratedShards := migratedShards[s := true];
          frozenShards := frozenShards - {s};
          return OK;
        }
      }
      maxShardNum := maxShardNum[s := num];
      migratedShards := migratedShards[s := true];
      Erase(s);
      frozenShards := frozenShards - {s};
      err := OK;
    }
  }
}
