/** The versioned key/value map that a kvraft service implements, and the one-key model that
    its histories are checked against. */
module VersionedMap {
  datatype Err = OK | ErrNoKey | ErrVersion | ErrMaybe | ErrWrongGroup

  datatype Entry = Entry(value: string, version: nat)

  datatype Op = Get(key: string) | Put(key: string, value: string, version: nat)

  datatype Reply = Reply(err: Err, value: string, version: nat)

  type Store = map<string, Entry>

  function PutErr(err: Err): (r: Reply) {
    Reply(err, "", 0)
  }

  /** What one operation answers. */
  function Answer(store: Store, op: Op): (r: Reply) {
    match op
    case Get(k) => if k in store then Reply(OK, store[k].value, store[k].version) else Reply(ErrNoKey, "", 0)
    case Put(k, _, version) => PutErr(if Version(store, k) == version then OK else ErrVersion)
  }

  /** What one operation leaves behind. */
  function After(store: Store, op: Op): (r: Store) {
    if op.Put? && Version(store, op.key) == op.version then store[op.key := Entry(op.value, op.version + 1)] else store
  }

  /** The version of a key; a key that is not there has version 0. */
  function Version(store: Store, k: string): (r: nat) {
    if k in store then store[k].version else 0
  }

  /** Every stored version is at least 1, so version 0 is that of an absent key only. */
  predicate Versioned(store: Store) {
    forall k :: k in store ==> store[k].version > 0
  }

  /** The state of the one-key model for key `k`. */
  function Project(store: Store, k: string): (r: Entry) {
    if k in store then store[k] else Entry("", 0)
  }

  /** The transition relation of the one-key model: is the answer allowed, and what is the next state? */
  function ModelStep(state: Entry, op: Op, answer: Reply): (r: (bool, Entry)) {
    match op
    case Get(_) => (answer.value == state.value, state)
    case Put(_, value, version) =>
      if state.version == version then (answer.err in {OK, ErrMaybe}, Entry(value, state.version + 1))
      else (answer.err in {ErrVersion, ErrMaybe}, state)
  }

  /** Executing an operation is a step of the one-key model of its key and of no other key. */
  lemma Refines(store: Store, op: Op, k: string)
    requires Versioned(store)
    ensures Versioned(After(store, op))
    ensures op.key == k ==> ModelStep(Project(store, k), op, Answer(store, op)) == (true, Project(After(store, op), k))
    ensures op.key != k ==> Project(After(store, op), k) == Project(store, k)
  {
  }

  // ---- what the answers mean -----------------------------------------------------

  /** An operation and its answer. */
  datatype Exchange = Exchange(op: Op, reply: Reply)

  /** A Put on the key that was accepted. */
  predicate Stores(x: Exchange, key: string) {
    x.op.Put? && x.op.key == key && x.reply.err == OK
  }

  /** How many Puts on the key were accepted. */
  ghost function Accepted(log: seq<Exchange>, key: string): (r: nat) {
    if log == [] then 0 else (if Stores(log[0], key) then 1 else 0) + Accepted(log[1..], key)
  }

  /** The position of the last accepted Put on the key, or -1. */
  ghost function LastStored(log: seq<Exchange>, key: string): (p: int)
    ensures -1 <= p < |log| && (p >= 0 ==> Stores(log[p], key))
    ensures forall j :: p < j < |log| ==> !Stores(log[j], key)
  {
    if log == [] || Stores(log[|log| - 1], key) then |log| - 1 else LastStored(log[..|log| - 1], key)
  }

  /** The right answer after `log`: a Get finds the value of the last accepted Put on its key, with the number of
      accepted Puts as the version; a Put is accepted exactly if its version is that number. */
  ghost function RightAnswer(log: seq<Exchange>, op: Op): (r: Reply) {
    var p, n := LastStored(log, op.key), Accepted(log, op.key);
    match op
    case Get(_) => if p < 0 then Reply(ErrNoKey, "", 0) else Reply(OK, log[p].op.value, n)
    case Put(_, _, version) => PutErr(if version == n then OK else ErrVersion)
  }

  /** Every answer in the log is right. */
  ghost predicate AllRight(log: seq<Exchange>) {
    forall i :: 0 <= i < |log| ==> log[i].reply == RightAnswer(log[..i], log[i].op)
  }

  ghost predicate HoldsAt(store: Store, log: seq<Exchange>, key: string) {
    var p, n := LastStored(log, key), Accepted(log, key);
    && (key in store <==> p >= 0) && (p < 0 ==> n == 0)
    && (key in store ==> store[key] == Entry(log[p].op.value, n))
  }

  /** The store holds exactly what the accepted Puts wrote. */
  ghost predicate Holds(store: Store, log: seq<Exchange>) {
    forall key :: HoldsAt(store, log, key)
  }

  lemma {:induction false} AcceptedMore(log: seq<Exchange>, x: Exchange, key: string)
    ensures Accepted(log + [x], key) == Accepted(log, key) + if Stores(x, key) then 1 else 0
  {
    if log == [] {
      assert [x][1..] == [];
    } else {
      AcceptedMore(log[1..], x, key);
      assert (log + [x])[1..] == log[1..] + [x];
    }
  }

  lemma LastStoredMore(log: seq<Exchange>, x: Exchange, key: string)
    ensures LastStored(log + [x], key) == if Stores(x, key) then |log| else LastStored(log, key)
  {
    assert (log + [x])[..|log|] == log;
  }

  lemma NothingStored()
    ensures Holds(map[], []) && AllRight([])
  {
  }

  lemma HeldAt(store: Store, log: seq<Exchange>, key: string)
    requires Holds(store, log)
    ensures HoldsAt(store, log, key)
  {
    hide HoldsAt;
  }

  /** A store that holds what was written gives the right answer. */
  lemma AnswerIsRight(store: Store, log: seq<Exchange>, op: Op)
    requires HoldsAt(store, log, op.key)
    ensures Answer(store, op) == RightAnswer(log, op)
  {
    hide LastStored, Accepted;
  }

  lemma HoldsMoreAt(store: Store, log: seq<Exchange>, op: Op, key: string)
    requires HoldsAt(store, log, op.key) && HoldsAt(store, log, key)
    ensures HoldsAt(After(store, op), log + [Exchange(op, Answer(store, op))], key)
  {
    var x := Exchange(op, Answer(store, op));
    AcceptedMore(log, x, key);
    LastStoredMore(log, x, key);
    hide LastStored, Accepted;
    var p := LastStored(log, key);
    assert p >= 0 ==> (log + [x])[p] == log[p];
  }

  /** And holds it again after the operation. */
  lemma HoldsMore(store: Store, log: seq<Exchange>, op: Op)
    requires Holds(store, log)
    ensures Holds(After(store, op), log + [Exchange(op, Answer(store, op))])
  {
    hide HoldsAt, After, Answer;
    forall key ensures HoldsAt(After(store, op), log + [Exchange(op, Answer(store, op))], key) {
      HoldsMoreAt(store, log, op, key);
    }
  }

  lemma AllRightMore(log: seq<Exchange>, x: Exchange)
    requires AllRight(log) && x.reply == RightAnswer(log, x.op)
    ensures AllRight(log + [x])
  {
    hide RightAnswer;
    forall i | 0 <= i < |log| + 1 ensures (log + [x])[i].reply == RightAnswer((log + [x])[..i], (log + [x])[i].op) {
      assert (log + [x])[..i] == log[..i];
    }
  }
}
