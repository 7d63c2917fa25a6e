/** A key/value server that filters duplicates: each client numbers its Puts and Appends, and the server
    remembers per client the next number and the value its last Append found. */
module KvServer {

  datatype Call = Put(key: string, value: string) | Append(key: string, value: string)

  /** A request; `clientId` is -1 while the client has no id. */
  datatype Args = Args(call: Call, clientId: int, transactionId: int)

  datatype Reply = Reply(value: string, clientId: int, ackId: int)

  datatype Ack = Ack(ackId: int, buffer: string)

  datatype Server = Server(kv: map<string, string>, acks: seq<Ack>)

  function Value(kv: map<string, string>, key: string): (r: string) {
    if key in kv then kv[key] else ""
  }

  function Apply(kv: map<string, string>, call: Call): (r: map<string, string>) {
    match call
    case Put(key, value) => kv[key := value]
    case Append(key, value) => kv[key := Value(kv, key) + value]
  }

  predicate Served(s: Server, args: Args) {
    args.clientId == -1 || 0 <= args.clientId < |s.acks|
  }

  /** Is this the request that the server is waiting for from this client? */
  predicate IsNext(s: Server, args: Args)
    requires Served(s, args)
  {
    args.clientId != -1 && args.transactionId == s.acks[args.clientId].ackId
  }

  function Handle(s: Server, args: Args): (r: (Server, Reply))
    requires Served(s, args)
  {
    if args.clientId == -1 then
      (s.(acks := s.acks + [Ack(args.transactionId, "")]), Reply("", |s.acks|, args.transactionId))
    else
      var id := args.clientId;
      var found := Value(s.kv, args.call.key);
      if IsNext(s, args) then
        var ack := Ack(args.transactionId + 1, if args.call.Append? then found else s.acks[id].buffer);
        (Server(Apply(s.kv, args.call), s.acks[id := ack]), Reply(found, id, ack.ackId))
      else (s, Reply(s.acks[id].buffer, id, s.acks[id].ackId))
  }

  class KVServer {
    var keyValue: map<string, string>
    var ackTime: seq<Ack>

    function State(): (r: Server)
      reads this
    {
      Server(keyValue, ackTime)
    }

    constructor ()
      ensures State() == Server(map[], [])
    {
      keyValue, ackTime := map[], [];
    }

    method NewClient(transactionId: int) returns (id: int)
      modifies this`ackTime
      ensures id == |old(ackTime)| && ackTime == old(ackTime) + [Ack(transactionId, "")]
    {
      id := |ackTime|;
      ackTime := ackTime + [Ack(transactionId, "")];
    }

    method Get(key: string) returns (value: string)
      ensures value == Value(keyValue, key)
    {
      if key in keyValue {
        value := keyValue[key];
      } else {
        value := "";
      }
    }

    method Put(args: Args) returns (reply: Reply)
      requires args.call.Put? && Served(State(), args)
      modifies this
      ensures (State(), reply) == Handle(old(State()), args)
    {
      var key, clientId := args.call.key, args.clientId;
      var value := Get(key);
      if clientId == -1 {
        clientId := NewClient(args.transactionId);
        return Reply("", clientId, args.transactionId);
      }
      if args.transactionId == ackTime[clientId].ackId {
        ackTime := ackTime[clientId := ackTime[clientId].(ackId := 1 + ackTime[clientId].ackId)];
        keyValue := keyValue[key := args.call.value];
      } else {
        value := ackTime[clientId].buffer;
      }
      reply := Reply(value, clientId, ackTime[clientId].ackId);
    }

    method Append(args: Args) returns (reply: Reply)
      requires args.call.Append? && Served(State(), args)
      modifies this
      ensures (State(), reply) == Handle(old(State()), args)
    {
      var key, clientId := args.call.key, args.clientId;
      var value := Get(key);
      if clientId == -1 {
        clientId := NewClient(args.transactionId);
        return Reply("", clientId, args.transactionId);
      }
      if args.transactionId == ackTime[clientId].ackId {
        ackTime := ackTime[clientId := Ack(1 + ackTime[clientId].ackId, Value(keyValue, key))];
        keyValue := keyValue[key := Value(keyValue, key) + args.call.value];
      } else {
        value := ackTime[clientId].buffer;
      }
      reply := Reply(value, clientId, ackTime[clientId].ackId);
    }
  }
}

/** Any number of clerks and one server over a network that loses and repeats requests and loses replies. */
module ExactlyOnce {
  import opened KvServer
  import opened Writes

  /** `calls` are all calls made on this clerk so far; `transactionId` of them have returned. */
  datatype Clerk = Clerk(clientId: int, transactionId: nat, calls: seq<Call>)

  /** A message carries the clerk whose RPC it belongs to. */
  datatype Message = Request(clerk: nat, args: Args) | Answer(clerk: nat, args: Args, reply: Reply)

  /** The `number`-th call of `clerk` took effect; `before` is the value it found. */
  datatype Effect = Effect(clerk: nat, number: nat, call: Call, before: string)

  datatype Returned = Returned(clerk: nat, number: nat, value: string)

  /** `owners[id]` is the clerk whose request created client `id`. The last three fields only record. */
  datatype System = System(server: Server, clerks: seq<Clerk>, messages: set<Message>,
    owners: seq<nat>, effects: seq<Effect>, results: set<Returned>)

  datatype Event =
    | Invoke(c: nat, call: Call)
    | Serve(c: nat, args: Args)
    | Receive(c: nat, args: Args, reply: Reply)

  predicate Busy(k: Clerk) {
    k.transactionId < |k.calls|
  }

  ghost predicate Enabled(y: System, e: Event) {
    && e.c < |y.clerks|
    && match e
       case Invoke(c, _) => |y.clerks[c].calls| == y.clerks[c].transactionId
       case Serve(c, args) => Request(c, args) in y.messages && Served(y.server, args)
       case Receive(c, args, reply) => Answer(c, args, reply) in y.messages && Busy(y.clerks[c])
  }

  ghost function Sent(y: System, c: nat, k: Clerk): (r: System)
    requires c < |y.clerks| && Busy(k)
  {
    var request := Request(c, Args(k.calls[k.transactionId], k.clientId, k.transactionId));
    y.(clerks := y.clerks[c := k], messages := y.messages + {request})
  }

  ghost function Next(y: System, e: Event): (r: System)
    requires Enabled(y, e)
  {
    var k := y.clerks[e.c];
    match e
    case Invoke(c, call) => Sent(y, c, k.(calls := k.calls + [call]))
    case Serve(c, args) =>
      var (server, reply) := Handle(y.server, args);
      var z := y.(server := server, messages := y.messages + {Answer(c, args, reply)});
      if args.clientId == -1 then z.(owners := y.owners + [c])
      else if IsNext(y.server, args)
      then z.(effects := y.effects + [Effect(c, Number(args), args.call, Value(y.server.kv, args.call.key))])
      else z
    case Receive(c, args, reply) =>
      if k.clientId == -1 then Sent(y, c, k.(clientId := reply.clientId))
      else if k.transactionId == reply.ackId - 1 then
        y.(clerks := y.clerks[c := k.(transactionId := k.transactionId + 1)],
           results := y.results + {Returned(c, k.transactionId, reply.value)})
      else y
  }

  function Number(args: Args): (r: nat) {
    if args.transactionId < 0 then 0 else args.transactionId
  }

  ghost predicate Initial(y: System) {
    && y.server == Server(map[], []) && y.messages == {} && y.owners == [] && y.effects == [] && y.results == {}
    && forall c :: 0 <= c < |y.clerks| ==> y.clerks[c] == Clerk(-1, 0, [])
  }

  /** The store that the effects make, in their order. */
  ghost function Result(effects: seq<Effect>): (r: map<string, string>) {
    if effects == [] then map[] else Apply(Result(effects[..|effects| - 1]), effects[|effects| - 1].call)
  }

  // ---- the invariant -------------------------------------------------------------

  /** The effect of a call, where it took effect. */
  ghost predicate Did(effects: seq<Effect>, c: nat, n: int, i: nat) {
    i < |effects| && effects[i].clerk == c && effects[i].number == n
  }

  ghost predicate EffectsOk(y: System) {
    && y.server.kv == Result(y.effects)
    && (forall i :: 0 <= i < |y.effects| ==> EffectOk(y, i))
    && (forall i, j :: 0 <= i < j < |y.effects| && y.effects[i].clerk == y.effects[j].clerk ==>
          y.effects[i].number < y.effects[j].number)
  }

  ghost predicate EffectOk(y: System, i: nat)
    requires i < |y.effects|
  {
    var e := y.effects[i];
    && e.clerk < |y.clerks| && e.number < |y.clerks[e.clerk].calls| && e.call == y.clerks[e.clerk].calls[e.number]
    && e.before == Value(Result(y.effects[..i]), e.call.key)
  }

  /** How many of the clerk's calls the server has executed. */
  ghost function Executed(y: System, c: nat): (r: int)
    requires c < |y.clerks|
  {
    var id := y.clerks[c].clientId;
    if 0 <= id < |y.server.acks| then y.server.acks[id].ackId else 0
  }

  /** Call `n` of clerk `c` has taken effect, and if it is an Append it found `value`. */
  ghost predicate Took(effects: seq<Effect>, c: nat, n: int, value: string) {
    exists i: nat :: Did(effects, c, n, i) && (effects[i].call.Append? ==> effects[i].before == value)
  }

  /** An acknowledgement of the first `n` calls of clerk `c`. */
  ghost predicate Acknowledges(effects: seq<Effect>, c: nat, n: int, value: string) {
    n > 0 ==> Took(effects, c, n - 1, value)
  }

  ghost predicate ClerkOk(y: System, c: nat)
    requires c < |y.clerks|
  {
    var k := y.clerks[c];
    && |k.calls| <= k.transactionId + 1
    && (if k.clientId == -1 then k.transactionId == 0
        else 0 <= k.clientId < |y.server.acks| == |y.owners| && y.owners[k.clientId] == c)
    && k.transactionId <= |k.calls| && k.transactionId <= Executed(y, c) <= |k.calls|
    && (forall i :: 0 <= i < |y.effects| && y.effects[i].clerk == c ==> y.effects[i].number < Executed(y, c))
    && (k.clientId != -1 ==> Acknowledges(y.effects, c, Executed(y, c), y.server.acks[k.clientId].buffer))
  }

  ghost predicate IdsOk(y: System) {
    && |y.owners| == |y.server.acks|
    && (forall id :: 0 <= id < |y.owners| ==> y.owners[id] < |y.clerks|)
    && (forall id :: 0 <= id < |y.owners| && y.clerks[y.owners[id]].clientId != id ==> y.server.acks[id].ackId == 0)
  }

  ghost predicate MessageOk(y: System, m: Message) {
    && m.clerk < |y.clerks|
    && var k := y.clerks[m.clerk];
       match m
       case Request(c, args) =>
         && 0 <= args.transactionId < |k.calls| && args.call == k.calls[args.transactionId]
         && (if args.clientId == -1 then args.transactionId == 0 else args.clientId == k.clientId && k.clientId != -1)
       case Answer(c, args, reply) =>
         if args.clientId == -1
         then 0 <= reply.clientId < |y.owners| && y.owners[reply.clientId] == c && reply.ackId == 0
         else k.clientId != -1 && Acknowledges(y.effects, c, reply.ackId, reply.value)
  }

  ghost predicate ReturnOk(y: System, r: Returned) {
    && r.clerk < |y.clerks| && r.number < y.clerks[r.clerk].transactionId
    && Took(y.effects, r.clerk, r.number, r.value)
  }

  ghost predicate Inv(y: System) {
    && EffectsOk(y) && IdsOk(y)
    && (forall c :: 0 <= c < |y.clerks| ==> ClerkOk(y, c))
    && (forall m :: m in y.messages ==> MessageOk(y, m))
    && (forall r :: r in y.results ==> ReturnOk(y, r))
  }

  lemma TookMore(effects: seq<Effect>, e: Effect, c: nat, n: int, value: string)
    requires Took(effects, c, n, value)
    ensures Took(effects + [e], c, n, value)
  {
    var i: nat :| Did(effects, c, n, i) && (effects[i].call.Append? ==> effects[i].before == value);
    assert Did(effects + [e], c, n, i);
  }

  lemma EffectsKept(y: System, z: System)
    requires EffectsOk(y) && z.effects == y.effects && z.server.kv == y.server.kv && |z.clerks| == |y.clerks|
    requires forall c :: 0 <= c < |y.clerks| ==> y.clerks[c].calls <= z.clerks[c].calls
    ensures EffectsOk(z)
  {
    forall i | 0 <= i < |z.effects| ensures EffectOk(z, i) { assert EffectOk(y, i); }
  }

  lemma InvokeStep(y: System, c: nat, call: Call)
    requires Inv(y) && Enabled(y, Invoke(c, call))
    ensures Inv(Next(y, Invoke(c, call)))
  {
    var z := Next(y, Invoke(c, call));
    hide Took, Result;
    assert ClerkOk(y, c);
    EffectsKept(y, z);
    forall d | 0 <= d < |z.clerks| ensures ClerkOk(z, d) { assert ClerkOk(y, d); }
    forall m | m in z.messages ensures MessageOk(z, m) {
      if m in y.messages { assert MessageOk(y, m); }
    }
    forall r | r in z.results ensures ReturnOk(z, r) { assert ReturnOk(y, r); }
  }

  lemma RegisterStep(y: System, c: nat, args: Args)
    requires Inv(y) && Enabled(y, Serve(c, args)) && args.clientId == -1
    ensures Inv(Next(y, Serve(c, args)))
  {
    var z := Next(y, Serve(c, args));
    hide Took, Result;
    assert MessageOk(y, Request(c, args));
    EffectsKept(y, z);
    assert ClerkOk(y, c);
    forall d | 0 <= d < |z.clerks| ensures ClerkOk(z, d) { assert ClerkOk(y, d); }
    forall m | m in z.messages ensures MessageOk(z, m) {
      if m in y.messages { assert MessageOk(y, m); }
    }
    forall r | r in z.results ensures ReturnOk(z, r) { assert ReturnOk(y, r); }
  }

  lemma RepeatStep(y: System, c: nat, args: Args)
    requires Inv(y) && Enabled(y, Serve(c, args)) && args.clientId != -1 && !IsNext(y.server, args)
    ensures Inv(Next(y, Serve(c, args)))
  {
    var z := Next(y, Serve(c, args));
    hide Took, Result;
    assert MessageOk(y, Request(c, args));
    assert ClerkOk(y, c);
    EffectsKept(y, z);
    forall d | 0 <= d < |z.clerks| ensures ClerkOk(z, d) { assert ClerkOk(y, d); }
    forall m | m in z.messages ensures MessageOk(z, m) {
      if m in y.messages { assert MessageOk(y, m); }
    }
    forall r | r in z.results ensures ReturnOk(z, r) { assert ReturnOk(y, r); }
  }

  lemma NewEffect(y: System, z: System, e: Effect)
    requires EffectsOk(y) && z.effects == y.effects + [e] && z.clerks == y.clerks
    requires z.server.kv == Apply(y.server.kv, e.call)
    requires e.clerk < |y.clerks| && e.number < |y.clerks[e.clerk].calls| && e.call == y.clerks[e.clerk].calls[e.number]
    requires e.before == Value(y.server.kv, e.call.key)
    requires forall i :: 0 <= i < |y.effects| && y.effects[i].clerk == e.clerk ==> y.effects[i].number < e.number
    ensures EffectsOk(z)
    ensures forall value :: (e.call.Append? ==> value == e.before) ==> Took(z.effects, e.clerk, e.number, value)
  {
    var n := |y.effects|;
    assert z.effects[..n] == y.effects;
    forall i | 0 <= i < |z.effects| ensures EffectOk(z, i) {
      if i < n {
        assert EffectOk(y, i);
        assert z.effects[..i] == y.effects[..i];
      }
    }
    assert Did(z.effects, e.clerk, e.number, n);
  }

  lemma TookAll(y: System, z: System, e: Effect)
    requires z.effects == y.effects + [e]
    ensures forall d, n, value :: Took(y.effects, d, n, value) ==> Took(z.effects, d, n, value)
  {
    forall d, n, value | Took(y.effects, d, n, value) ensures Took(z.effects, d, n, value) {
      TookMore(y.effects, e, d, n, value);
    }
  }

  /** What the clerk's next call adds to the effects, and that the earlier effects stay. */
  lemma Executes(y: System, c: nat, args: Args)
    requires Inv(y) && Enabled(y, Serve(c, args)) && args.clientId != -1 && IsNext(y.server, args)
    ensures var z, before := Next(y, Serve(c, args)), Value(y.server.kv, args.call.key);
      && EffectsOk(z) && z.effects == y.effects + [Effect(c, args.transactionId, args.call, before)]
      && (forall d, n, value :: Took(y.effects, d, n, value) ==> Took(z.effects, d, n, value))
      && (forall value :: (args.call.Append? ==> value == before) ==> Took(z.effects, c, args.transactionId, value))
  {
    var z := Next(y, Serve(c, args));
    assert MessageOk(y, Request(c, args));
    assert ClerkOk(y, c);
    hide EffectsOk, Took;
    var e := Effect(c, args.transactionId, args.call, Value(y.server.kv, args.call.key));
    NewEffect(y, z, e);
    TookAll(y, z, e);
  }

  lemma ExecuteMessages(y: System, c: nat, args: Args)
    requires Inv(y) && Enabled(y, Serve(c, args)) && args.clientId != -1 && IsNext(y.server, args)
    ensures var z := Next(y, Serve(c, args)); forall m :: m in z.messages ==> MessageOk(z, m)
  {
    Executes(y, c, args);
    hide Result, EffectsOk, Took, ClerkOk, ReturnOk;
    assert MessageOk(y, Request(c, args));
    var z := Next(y, Serve(c, args));
    forall m | m in z.messages ensures MessageOk(z, m) {
      if m in y.messages { assert MessageOk(y, m); }
    }
  }

  lemma ExecuteClerks(y: System, c: nat, args: Args)
    requires Inv(y) && Enabled(y, Serve(c, args)) && args.clientId != -1 && IsNext(y.server, args)
    ensures var z := Next(y, Serve(c, args)); forall d :: 0 <= d < |z.clerks| ==> ClerkOk(z, d)
  {
    Executes(y, c, args);
    hide Result, EffectsOk, Took, ReturnOk;
    assert MessageOk(y, Request(c, args));
    assert ClerkOk(y, c);
    hide MessageOk;
    var z := Next(y, Serve(c, args));
    forall d | 0 <= d < |z.clerks| ensures ClerkOk(z, d) { assert ClerkOk(y, d); }
  }

  lemma ExecuteStep(y: System, c: nat, args: Args)
    requires Inv(y) && Enabled(y, Serve(c, args)) && args.clientId != -1 && IsNext(y.server, args)
    ensures Inv(Next(y, Serve(c, args)))
  {
    Executes(y, c, args);
    ExecuteMessages(y, c, args);
    ExecuteClerks(y, c, args);
    assert MessageOk(y, Request(c, args));
    assert ClerkOk(y, c);
    hide Result, EffectsOk, Took, MessageOk, ClerkOk;
    var z := Next(y, Serve(c, args));
    forall r | r in z.results ensures ReturnOk(z, r) { assert ReturnOk(y, r); }
  }

  /** A clerk without an id takes the one it is given. */
  lemma AdoptStep(y: System, c: nat, args: Args, reply: Reply)
    requires Inv(y) && Enabled(y, Receive(c, args, reply)) && y.clerks[c].clientId == -1
    ensures Inv(Next(y, Receive(c, args, reply)))
  {
    var z := Next(y, Receive(c, args, reply));
    assert ClerkOk(y, c);
    assert MessageOk(y, Answer(c, args, reply));
    EffectsKept(y, z);
    hide Result, EffectsOk, Took;
    forall d | 0 <= d < |z.clerks| ensures ClerkOk(z, d) { assert ClerkOk(y, d); }
    forall m | m in z.messages ensures MessageOk(z, m) {
      if m in y.messages { assert MessageOk(y, m); }
    }
    forall r | r in z.results ensures ReturnOk(z, r) {
      if r in y.results { assert ReturnOk(y, r); }
    }
  }

  /** An acknowledgement of the current call ends it. */
  lemma ReturnStep(y: System, c: nat, args: Args, reply: Reply)
    requires Inv(y) && Enabled(y, Receive(c, args, reply)) && y.clerks[c].clientId != -1
    requires y.clerks[c].transactionId == reply.ackId - 1
    ensures Inv(Next(y, Receive(c, args, reply)))
  {
    var z := Next(y, Receive(c, args, reply));
    assert ClerkOk(y, c);
    assert MessageOk(y, Answer(c, args, reply));
    EffectsKept(y, z);
    Counted(y, c, y.clerks[c].transactionId, reply.value);
    hide Result, EffectsOk, Took;
    forall d | 0 <= d < |z.clerks| ensures ClerkOk(z, d) { assert ClerkOk(y, d); }
    forall m | m in z.messages ensures MessageOk(z, m) {
      if m in y.messages { assert MessageOk(y, m); }
    }
    forall r | r in z.results ensures ReturnOk(z, r) {
      if r in y.results { assert ReturnOk(y, r); }
    }
  }

  lemma IgnoreStep(y: System, c: nat, args: Args, reply: Reply)
    requires Enabled(y, Receive(c, args, reply)) && y.clerks[c].clientId != -1
    requires y.clerks[c].transactionId != reply.ackId - 1
    ensures Next(y, Receive(c, args, reply)) == y
  {
  }

  lemma Counted(y: System, c: nat, n: nat, value: string)
    requires c < |y.clerks| && ClerkOk(y, c) && Took(y.effects, c, n, value)
    ensures n < Executed(y, c)
  {
  }

  /** The server never looks up an id it has not given out. */
  lemma RequestsServed(y: System, c: nat, args: Args)
    requires Inv(y) && Request(c, args) in y.messages
    ensures Served(y.server, args)
  {
    assert MessageOk(y, Request(c, args));
    assert ClerkOk(y, c);
  }

  ghost predicate IsRun(run: seq<System>, events: seq<Event>) {
    && |run| == |events| + 1 && Initial(run[0])
    && forall i :: 0 <= i < |events| ==> Enabled(run[i], events[i]) && run[i + 1] == Next(run[i], events[i])
  }

  lemma {:induction false} Reachable(run: seq<System>, events: seq<Event>, i: nat)
    requires IsRun(run, events) && i < |run|
    ensures Inv(run[i])
  {
    hide Inv, Next, Enabled;
    if i == 0 {
      InitialInv(run[0]);
    } else {
      Reachable(run, events, i - 1);
      Step(run[i - 1], events[i - 1]);
    }
  }

  lemma InitialInv(y: System)
    requires Initial(y)
    ensures Inv(y)
  {
  }

  lemma Step(y: System, e: Event)
    requires Inv(y) && Enabled(y, e)
    ensures Inv(Next(y, e))
  {
    hide Inv, Next;
    match e
    case Invoke(c, call) => InvokeStep(y, c, call);
    case Serve(c, args) =>
      if args.clientId == -1 {
        RegisterStep(y, c, args);
      } else if IsNext(y.server, args) {
        ExecuteStep(y, c, args);
      } else {
        RepeatStep(y, c, args);
      }
    case Receive(c, args, reply) =>
      if y.clerks[c].clientId == -1 {
        AdoptStep(y, c, args, reply);
      } else if y.clerks[c].transactionId == reply.ackId - 1 {
        ReturnStep(y, c, args, reply);
      } else {
        IgnoreStep(y, c, args, reply);
      }
  }

  // ---- what the store holds ------------------------------------------------------

  ghost function WriteOf(e: Effect): (r: Write) {
    match e.call
    case Put(key, value) => Replace(key, value)
    case Append(key, value) => Extend(key, value)
  }

  ghost function WritesOf(effects: seq<Effect>): (r: seq<Write>)
    ensures |r| == |effects|
  {
    seq(|effects|, i requires 0 <= i < |effects| => WriteOf(effects[i]))
  }

  /** The key is there if something was written to it, with the value of the last Put on it followed by the values of
      all later Appends to it, in order. */
  ghost predicate HoldsAt(kv: map<string, string>, ws: seq<Write>, key: string) {
    && (key in kv <==> Touched(ws, key))
    && (key in kv ==> kv[key] == Written(ws, key))
  }

  ghost predicate Holds(kv: map<string, string>, ws: seq<Write>) {
    forall key :: HoldsAt(kv, ws, key)
  }

  lemma {:induction false} Untouched(ws: seq<Write>, key: string)
    requires !Touched(ws, key)
    ensures Written(ws, key) == ""
  {
    if ws == [] {
      NothingWritten(key);
    } else {
      var front, w := ws[..|ws| - 1], ws[|ws| - 1];
      assert ws == front + [w];
      TouchedMore(front, w, key);
      WrittenMore(front, w, key);
      hide Touched, Written;
      Untouched(front, key);
    }
  }

  lemma HeldValue(kv: map<string, string>, ws: seq<Write>, key: string)
    requires HoldsAt(kv, ws, key)
    ensures Value(kv, key) == Written(ws, key)
  {
    hide Written, Touched;
    if key !in kv { Untouched(ws, key); }
  }

  lemma HoldsMoreAt(kv: map<string, string>, ws: seq<Write>, e: Effect, key: string)
    requires HoldsAt(kv, ws, key)
    ensures HoldsAt(Apply(kv, e.call), ws + [WriteOf(e)], key)
  {
    hide Written, Touched;
    HeldValue(kv, ws, key);
    WrittenMore(ws, WriteOf(e), key);
    TouchedMore(ws, WriteOf(e), key);
  }

  lemma HoldsMore(kv: map<string, string>, ws: seq<Write>, e: Effect)
    requires Holds(kv, ws)
    ensures Holds(Apply(kv, e.call), ws + [WriteOf(e)])
  {
    hide HoldsAt, Apply, WriteOf;
    forall key ensures HoldsAt(Apply(kv, e.call), ws + [WriteOf(e)], key) { HoldsMoreAt(kv, ws, e, key); }
  }

  lemma {:induction false} ResultHolds(effects: seq<Effect>)
    ensures Holds(Result(effects), WritesOf(effects))
  {
    if effects == [] {
      forall key ensures !Touched(WritesOf(effects), key) { NothingWritten(key); }
    } else {
      var front, e := effects[..|effects| - 1], effects[|effects| - 1];
      ResultHolds(front);
      hide Holds, Apply;
      assert WritesOf(effects) == WritesOf(front) + [WriteOf(e)];
      HoldsMore(Result(front), WritesOf(front), e);
    }
  }

  /** The effect is that of the clerk's call with this number, and found what the earlier effects wrote. */
  ghost predicate EffectRight(y: System, i: nat)
    requires i < |y.effects|
  {
    var e := y.effects[i];
    && e.clerk < |y.clerks| && e.number < |y.clerks[e.clerk].calls| && e.call == y.clerks[e.clerk].calls[e.number]
    && e.before == Written(WritesOf(y.effects)[..i], e.call.key)
  }

  lemma EffectFound(y: System, i: nat)
    requires i < |y.effects| && EffectOk(y, i)
    ensures EffectRight(y, i)
  {
    ResultHolds(y.effects[..i]);
    hide HoldsAt, Result, Written;
    HeldValue(Result(y.effects[..i]), WritesOf(y.effects[..i]), y.effects[i].call.key);
    assert WritesOf(y.effects[..i]) == WritesOf(y.effects)[..i];
  }

  /** In every run the store holds what the effects wrote, in their order; no call has two effects; every call
      that has returned has one; and an Append has returned the value that its effect found. */
  lemma AppliedExactlyOnce(run: seq<System>, events: seq<Event>, t: nat)
    requires IsRun(run, events) && t < |run|
    ensures Holds(run[t].server.kv, WritesOf(run[t].effects))
    ensures forall i, j :: 0 <= i < j < |run[t].effects| ==>
      run[t].effects[i].clerk != run[t].effects[j].clerk || run[t].effects[i].number != run[t].effects[j].number
    ensures forall i :: 0 <= i < |run[t].effects| ==> EffectRight(run[t], i)
    ensures forall r :: r in run[t].results ==> Took(run[t].effects, r.clerk, r.number, r.value)
  {
    Reachable(run, events, t);
    hide Result, Took, IsRun, Holds, EffectRight;
    ResultHolds(run[t].effects);
    forall i | 0 <= i < |run[t].effects| ensures EffectRight(run[t], i) { EffectFound(run[t], i); }
    forall r | r in run[t].results
      ensures Took(run[t].effects, r.clerk, r.number, r.value)
    {
      assert ReturnOk(run[t], r);
    }
  }

  /** A call that has returned is in the record of results: none gets lost. */
  lemma {:induction false} EveryReturnRecorded(run: seq<System>, events: seq<Event>, t: nat, c: nat, n: nat)
    requires IsRun(run, events) && t < |run| && c < |run[t].clerks| && n < run[t].clerks[c].transactionId
    ensures exists value :: Returned(c, n, value) in run[t].results
  {
    hide Inv, Handle, IsNext;
    if t > 0 {
      var y, z := run[t - 1], run[t];
      if n < y.clerks[c].transactionId {
        EveryReturnRecorded(run, events, t - 1, c, n);
        var value :| Returned(c, n, value) in y.results;
        assert Returned(c, n, value) in z.results;
      } else {
        assert events[t - 1].Receive?;
        assert Returned(c, n, events[t - 1].reply.value) in z.results;
      }
    }
  }

  // ---- what the server remembers -------------------------------------------------

  /** The value that the last Append of the clerk found, or nothing. */
  ghost function LastFound(effects: seq<Effect>, c: nat): (r: string) {
    if effects == [] then ""
    else
      var e := effects[|effects| - 1];
      if e.clerk == c && e.call.Append? then e.before else LastFound(effects[..|effects| - 1], c)
  }

  ghost predicate Remembers(y: System) {
    && |y.owners| == |y.server.acks|
    && (forall c :: 0 <= c < |y.clerks| && 0 <= y.clerks[c].clientId < |y.server.acks| ==>
          y.server.acks[y.clerks[c].clientId].buffer == LastFound(y.effects, c))
    && (forall id :: 0 <= id < |y.owners| && y.owners[id] < |y.clerks| && y.clerks[y.owners[id]].clientId != id ==>
          y.server.acks[id].buffer == "")
  }

  lemma {:induction false} NothingFound(effects: seq<Effect>, c: nat)
    requires forall i :: 0 <= i < |effects| ==> effects[i].clerk != c
    ensures LastFound(effects, c) == ""
  {
    if effects != [] { NothingFound(effects[..|effects| - 1], c); }
  }

  lemma FoundMore(effects: seq<Effect>, e: Effect, c: nat)
    ensures LastFound(effects + [e], c) == if e.clerk == c && e.call.Append? then e.before else LastFound(effects, c)
  {
    assert (effects + [e])[..|effects|] == effects;
  }

  /** The ids of two clerks are two. */
  lemma OwnIds(y: System, c: nat, d: nat)
    requires Inv(y) && c < |y.clerks| && d < |y.clerks| && c != d && y.clerks[c].clientId != -1
    ensures 0 <= y.clerks[c].clientId < |y.owners| == |y.server.acks| && y.owners[y.clerks[c].clientId] == c
    ensures y.clerks[d].clientId != y.clerks[c].clientId
  {
    assert ClerkOk(y, c) && ClerkOk(y, d);
    hide EffectsOk, MessageOk, ReturnOk, Acknowledges;
  }

  lemma RegisterRemembers(y: System, c: nat, args: Args)
    requires Inv(y) && Enabled(y, Serve(c, args)) && Remembers(y) && args.clientId == -1
    ensures Remembers(Next(y, Serve(c, args)))
  {
    forall d | 0 <= d < |y.clerks| ensures y.clerks[d].clientId < |y.server.acks| { assert ClerkOk(y, d); }
    hide Inv, LastFound;
  }

  lemma ExecuteRemembers(y: System, c: nat, args: Args)
    requires Inv(y) && Enabled(y, Serve(c, args)) && Remembers(y) && args.clientId != -1 && IsNext(y.server, args)
    ensures Remembers(Next(y, Serve(c, args)))
  {
    var z := Next(y, Serve(c, args));
    assert MessageOk(y, Request(c, args)) && ClerkOk(y, c);
    var e := Effect(c, Number(args), args.call, Value(y.server.kv, args.call.key));
    forall d | 0 <= d < |y.clerks| ensures LastFound(z.effects, d) ==
      if d == c && e.call.Append? then e.before else LastFound(y.effects, d)
    {
      FoundMore(y.effects, e, d);
    }
    forall d | 0 <= d < |y.clerks| && d != c ensures y.clerks[d].clientId != y.clerks[c].clientId { OwnIds(y, c, d); }
    hide Inv, Apply, LastFound, Value;
  }

  lemma ServeRemembers(y: System, c: nat, args: Args)
    requires Inv(y) && Enabled(y, Serve(c, args)) && Remembers(y)
    ensures Remembers(Next(y, Serve(c, args)))
  {
    if args.clientId == -1 {
      RegisterRemembers(y, c, args);
    } else if IsNext(y.server, args) {
      hide Remembers, Next, Inv;
      ExecuteRemembers(y, c, args);
    } else {
      hide Inv, LastFound;
    }
  }

  lemma ReceiveRemembers(y: System, c: nat, args: Args, reply: Reply)
    requires Inv(y) && Enabled(y, Receive(c, args, reply)) && Remembers(y)
    ensures Remembers(Next(y, Receive(c, args, reply)))
  {
    assert MessageOk(y, Answer(c, args, reply)) && ClerkOk(y, c);
    if y.clerks[c].clientId == -1 {
      NothingFound(y.effects, c);
    }
    hide Inv, LastFound;
  }

  lemma InvokeRemembers(y: System, c: nat, call: Call)
    requires Enabled(y, Invoke(c, call)) && Remembers(y)
    ensures Remembers(Next(y, Invoke(c, call)))
  {
    hide LastFound;
  }

  /** In every run the server remembers for every client the value that its last Append found. */
  lemma {:induction false} RemembersFound(run: seq<System>, events: seq<Event>, t: nat)
    requires IsRun(run, events) && t < |run|
    ensures Remembers(run[t])
  {
    if t > 0 {
      hide Remembers, Inv, Next, Enabled, Initial;
      RemembersFound(run, events, t - 1);
      Reachable(run, events, t - 1);
      match events[t - 1]
      case Invoke(c, call) => InvokeRemembers(run[t - 1], c, call);
      case Serve(c, args) => ServeRemembers(run[t - 1], c, args);
      case Receive(c, args, reply) => ReceiveRemembers(run[t - 1], c, args, reply);
    }
  }

  // ---- no call is stuck ----------------------------------------------------------

  /** The request that the clerk is waiting for an answer to. */
  ghost function Current(y: System, c: nat): (r: Args)
    requires c < |y.clerks| && Busy(y.clerks[c])
  {
    var k := y.clerks[c];
    Args(k.calls[k.transactionId], k.clientId, k.transactionId)
  }

  ghost predicate Asked(y: System, c: nat) {
    c < |y.clerks| && Busy(y.clerks[c]) ==> Request(c, Current(y, c)) in y.messages
  }

  lemma StillAsked(y: System, e: Event, c: nat)
    requires Inv(y) && Enabled(y, e) && Asked(y, c)
    ensures Asked(Next(y, e), c)
  {
    assert ClerkOk(y, e.c);
    hide Handle, IsNext, Took, EffectsOk, IdsOk, MessageOk, ReturnOk;
  }

  lemma {:induction false} AlwaysAsked(run: seq<System>, events: seq<Event>, t: nat, c: nat)
    requires IsRun(run, events) && t < |run|
    ensures Asked(run[t], c)
  {
    if t > 0 {
      AlwaysAsked(run, events, t - 1, c);
      Reachable(run, events, t - 1);
      hide IsRun, Inv;
      StillAsked(run[t - 1], events[t - 1], c);
    }
  }

  /** What the server answers to a clerk that has an id, whether or not it has heard the request before. */
  lemma AnswerReturns(y: System, c: nat)
    requires Inv(y) && c < |y.clerks| && Busy(y.clerks[c]) && Asked(y, c) && y.clerks[c].clientId != -1
    ensures var args := Current(y, c);
      && Served(y.server, args) && Handle(y.server, args).1.ackId == y.clerks[c].transactionId + 1
  {
    assert ClerkOk(y, c);
    hide Took, Result;
  }

  /** A clerk with an id is one delivery and one answer away from the end of its call. */
  lemma ReturnsNext(y: System, c: nat) returns (z: System, reply: Reply)
    requires Inv(y) && c < |y.clerks| && Busy(y.clerks[c]) && Asked(y, c) && y.clerks[c].clientId != -1
    ensures Enabled(y, Serve(c, Current(y, c)))
    ensures var u := Next(y, Serve(c, Current(y, c)));
      Enabled(u, Receive(c, Current(y, c), reply)) && z == Next(u, Receive(c, Current(y, c), reply))
    ensures |z.clerks| == |y.clerks| && z.clerks[c].transactionId == y.clerks[c].transactionId + 1
  {
    hide Inv;
    AnswerReturns(y, c);
    var args := Current(y, c);
    reply := Handle(y.server, args).1;
    hide Handle, IsNext;
    var u := Next(y, Serve(c, args));
    z := Next(u, Receive(c, args, reply));
  }

  /** A clerk without an id is as close to getting one. */
  lemma RegistersNext(y: System, c: nat) returns (z: System, reply: Reply)
    requires Inv(y) && c < |y.clerks| && Busy(y.clerks[c]) && Asked(y, c) && y.clerks[c].clientId == -1
    ensures Enabled(y, Serve(c, Current(y, c)))
    ensures var u := Next(y, Serve(c, Current(y, c)));
      Enabled(u, Receive(c, Current(y, c), reply)) && z == Next(u, Receive(c, Current(y, c), reply))
    ensures |z.clerks| == |y.clerks| && z.clerks[c] == y.clerks[c].(clientId := |y.server.acks|) && Asked(z, c)
  {
    hide Inv;
    var args := Current(y, c);
    reply := Handle(y.server, args).1;
    var u := Next(y, Serve(c, args));
    z := Next(u, Receive(c, args, reply));
  }

  ghost predicate IsPath(states: seq<System>, events: seq<Event>) {
    && |states| == |events| + 1
    && forall i :: 0 <= i < |events| ==> Enabled(states[i], events[i]) && states[i + 1] == Next(states[i], events[i])
  }

  /** In every reachable state every call can still return, after at most two requests are served and answered. */
  lemma CanReturn(run: seq<System>, events: seq<Event>, t: nat, c: nat) returns (on: seq<System>, more: seq<Event>)
    requires IsRun(run, events) && t < |run| && c < |run[t].clerks| && Busy(run[t].clerks[c])
    ensures IsPath(on, more) && on[0] == run[t] && |more| <= 4
    ensures var y, z := run[t], on[|more|];
      |z.clerks| == |y.clerks| && z.clerks[c].transactionId == y.clerks[c].transactionId + 1
  {
    hide Inv, Next, Enabled, Asked;
    Reachable(run, events, t);
    AlwaysAsked(run, events, t, c);
    var y := run[t];
    if y.clerks[c].clientId != -1 {
      var z, reply := ReturnsNext(y, c);
      on := [y, Next(y, Serve(c, Current(y, c))), z];
      more := [Serve(c, Current(y, c)), Receive(c, Current(y, c), reply)];
    } else {
      var x, reply := RegistersNext(y, c);
      var u := Next(y, Serve(c, Current(y, c)));
      Step(y, Serve(c, Current(y, c)));
      Step(u, Receive(c, Current(y, c), reply));
      var z, reply2 := ReturnsNext(x, c);
      on := [y, u, x, Next(x, Serve(c, Current(x, c))), z];
      more := [Serve(c, Current(y, c)), Receive(c, Current(y, c), reply), Serve(c, Current(x, c)),
               Receive(c, Current(x, c), reply2)];
    }
  }
}
