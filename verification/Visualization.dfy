/** The replay that turns recorded partial linearizations into the data of the visualizer. */
module Visualization {
  import opened Options
  import opened Linearizability
  import opened Histories
  import opened Sorting

  datatype Step<S> = Step(index: int, state: S)

  /** One operation as it is drawn. */
  datatype Element = Element(clientId: int, start: int, end: int, description: string)

  /** What there is to draw of one partition. */
  datatype Drawing<S> = Drawing(history: seq<Element>, partials: seq<seq<Step<S>>>, largest: map<int, int>)

  ghost function ElementOf<V>(h: seq<Entry<V>>, n: nat, describe: (V, V) -> string, id: nat): (r: Element)
    requires WellFormed(h, n) && id < n
  {
    var call, ret := h[CallPos(h, id)], h[RetPos(h, id)];
    Element(call.clientId, call.time, ret.time, describe(call.value, ret.value))
  }

  /** The first `i` events are entered: what is known of operation `id`. */
  ghost predicate Entered<V>(h: seq<Entry<V>>, n: nat, describe: (V, V) -> string, i: nat, id: nat, element: Element,
      callValue: map<int, V>, returnValue: map<int, V>)
    requires WellFormed(h, n) && id < n
  {
    var whole := ElementOf(h, n, describe, id);
    && (CallPos(h, id) < i ==>
          && id in callValue && callValue[id] == h[CallPos(h, id)].value
          && element.clientId == whole.clientId && element.start == whole.start)
    && (RetPos(h, id) < i ==>
          && id in returnValue && returnValue[id] == h[RetPos(h, id)].value
          && element.end == whole.end && element.description == whole.description)
  }

  /** Each operation as it is drawn, and the values with which it was called and returned. */
  method CollectValues<V>(history: seq<Entry<V>>, n: nat, describe: (V, V) -> string)
      returns (elements: seq<Element>, callValue: map<int, V>, returnValue: map<int, V>)
    requires WellFormed(history, n)
    ensures |elements| == n && forall id :: 0 <= id < n ==> elements[id] == ElementOf(history, n, describe, id)
    ensures forall id :: 0 <= id < n ==> id in callValue && callValue[id] == history[CallPos(history, id)].value
    ensures forall id :: 0 <= id < n ==> id in returnValue && returnValue[id] == history[RetPos(history, id)].value
  {
    hide Find;
    callValue, returnValue := map[], map[];
    elements := seq(n, _ => Element(0, 0, 0, ""));
    for i := 0 to |history|
      invariant |elements| == n
      invariant forall id :: 0 <= id < n ==> Entered(history, n, describe, i, id, elements[id], callValue, returnValue)
    {
      var elem := history[i];
      Own(history, n, i);
      if elem.isReturn {
        assert Entered(history, n, describe, i, elem.id, elements[elem.id], callValue, returnValue);
        var description := describe(callValue[elem.id], elem.value);
        elements := elements[elem.id := elements[elem.id].(end := elem.time, description := description)];
        returnValue := returnValue[elem.id := elem.value];
      } else {
        elements := elements[elem.id := elements[elem.id].(clientId := elem.clientId, start := elem.time)];
        callValue := callValue[elem.id := elem.value];
      }
    }
    forall id | 0 <= id < n
      ensures && elements[id] == ElementOf(history, n, describe, id)
              && id in callValue && callValue[id] == history[CallPos(history, id)].value
              && id in returnValue && returnValue[id] == history[RetPos(history, id)].value
    {
      assert Entered(history, n, describe, |history|, id, elements[id], callValue, returnValue);
    }
  }

  /** Event `i` is the call or the return of its own operation, and of no other. */
  lemma Own<V>(h: seq<Entry<V>>, n: nat, i: nat)
    requires WellFormed(h, n) && i < |h|
    ensures forall id :: 0 <= id < n && CallPos(h, id) == i ==> !h[i].isReturn && h[i].id == id
    ensures forall id :: 0 <= id < n && RetPos(h, id) == i ==> h[i].isReturn && h[i].id == id
    ensures if h[i].isReturn then RetPos(h, h[i].id) == i else CallPos(h, h[i].id) == i
  {
    forall id | 0 <= id < n && CallPos(h, id) == i ensures !h[i].isReturn && h[i].id == id { FindFirst(h, id, false); }
    forall id | 0 <= id < n && RetPos(h, id) == i ensures h[i].isReturn && h[i].id == id { FindFirst(h, id, true); }
  }

  /** The states along one partial linearization. */
  ghost predicate Replays<S, V>(m: Model<S, V>, h: seq<Entry<V>>, n: nat, partial: seq<int>, steps: seq<Step<S>>)
    requires WellFormed(h, n)
  {
    && |steps| <= |partial| && (forall j :: 0 <= j < |partial| ==> 0 <= partial[j] < n)
    && forall j :: 0 <= j < |steps| ==>
        steps[j].index == partial[j] && RunIds(m, h, n, partial[..j + 1]) == Some(steps[j].state)
  }

  lemma {:induction false} LegalPrefix<S, V>(m: Model<S, V>, h: seq<Entry<V>>, n: nat, ids: seq<int>, j: nat)
    requires WellFormed(h, n) && (forall i :: 0 <= i < |ids| ==> 0 <= ids[i] < n) && RunIds(m, h, n, ids).Some?
    requires j <= |ids|
    ensures RunIds(m, h, n, ids[..j]).Some?
  {
    hide WellFormed, Find;
    if j == |ids| {
      assert ids[..j] == ids;
    } else {
      var k := |ids| - 1;
      assert ids[..k][..j] == ids[..j];
      LegalPrefix(m, h, n, ids[..k], j);
    }
  }

  /** Replays one partial linearization. The model accepts every step, so the replay never panics. */
  method ReplayOne<S, V>(model: Model<S, V>, ghost history: seq<Entry<V>>, ghost n: nat, partial: seq<int>,
      callValue: map<int, V>, returnValue: map<int, V>)
    returns (steps: seq<Step<S>>)
    requires WellFormed(history, n) && Partial(model, history, n, partial)
    requires forall id :: 0 <= id < n ==> id in callValue && callValue[id] == history[CallPos(history, id)].value
    requires forall id :: 0 <= id < n ==> id in returnValue && returnValue[id] == history[RetPos(history, id)].value
    ensures Replays(model, history, n, partial, steps) && |steps| == |partial|
  {
    hide WellFormed, Find, RunIds, Ready;
    InRange(model, history, n, partial);
    steps := [];
    var state := model.init;
    Begin(model, history, n, partial);
    for j := 0 to |partial|
      invariant |steps| == j && Replays(model, history, n, partial, steps)
      invariant RunIds(model, history, n, partial[..j]) == Some(state)
    {
      Accepted(model, history, n, partial, j, state);
      var (ok, next) := model.step(state, callValue[partial[j]], returnValue[partial[j]]);
      if !ok {
        assert false;
      }
      state := next;
      steps := steps + [Step(partial[j], state)];
    }
  }

  lemma InRange<S, V>(m: Model<S, V>, h: seq<Entry<V>>, n: nat, partial: seq<int>)
    requires WellFormed(h, n) && Partial(m, h, n, partial)
    ensures forall j :: 0 <= j < |partial| ==> 0 <= partial[j] < n
  {
    assert forall j :: 0 <= j < |partial| ==> Ready(h, n, IdSet(partial[..j]), partial[j]);
  }

  lemma Begin<S, V>(m: Model<S, V>, h: seq<Entry<V>>, n: nat, ids: seq<int>)
    requires WellFormed(h, n)
    ensures RunIds(m, h, n, ids[..0]) == Some(m.init)
  {
  }

  /** The model accepts the next operation of a legal sequence. */
  lemma Accepted<S, V>(m: Model<S, V>, h: seq<Entry<V>>, n: nat, ids: seq<int>, j: nat, state: S)
    requires WellFormed(h, n) && (forall i :: 0 <= i < |ids| ==> 0 <= ids[i] < n) && RunIds(m, h, n, ids).Some?
    requires j < |ids| && RunIds(m, h, n, ids[..j]) == Some(state)
    ensures var (ok, next) := m.step(state, h[CallPos(h, ids[j])].value, h[RetPos(h, ids[j])].value);
      ok && RunIds(m, h, n, ids[..j + 1]) == Some(next)
  {
    hide Find;
    LegalPrefix(m, h, n, ids, j + 1);
    assert ids[..j + 1][..j] == ids[..j];
  }

  /** `largest` names, for each operation in some partial linearization, the first longest one that has it. */
  ghost predicate Names(partials: seq<seq<int>>, largest: map<int, int>, sizes: map<int, int>) {
    && largest.Keys == sizes.Keys
    && (forall id :: id in largest ==>
          0 <= largest[id] < |partials| && id in partials[largest[id]] && sizes[id] == |partials[largest[id]]|)
    && (forall i, id :: 0 <= i < |partials| && id in partials[i] ==> id in largest && largest[id] <= i)
  }

  ghost predicate Decreasing(partials: seq<seq<int>>) {
    forall a, b :: 0 <= a < b < |partials| ==> |partials[a]| >= |partials[b]|
  }

  /** As `Names` for the first `i` sequences and the first `j` operations of the next. */
  ghost predicate NamesPart(partials: seq<seq<int>>, i: nat, j: nat, largest: map<int, int>, sizes: map<int, int>)
    requires i < |partials| && j <= |partials[i]|
  {
    && largest.Keys == sizes.Keys
    && (forall id :: id in largest ==>
          0 <= largest[id] <= i && id in partials[largest[id]] && sizes[id] == |partials[largest[id]]|)
    && (forall a, id :: 0 <= a < i && id in partials[a] ==> id in largest && largest[id] <= a)
    && (forall k :: 0 <= k < j ==> partials[i][k] in largest)
  }

  lemma NameFirst(partials: seq<seq<int>>, i: nat, largest: map<int, int>, sizes: map<int, int>)
    requires i < |partials| && Names(partials[..i], largest, sizes)
    ensures NamesPart(partials, i, 0, largest, sizes)
  {
    forall a, id | 0 <= a < i && id in partials[a]
      ensures id in largest && largest[id] <= a
    {
      assert id in partials[..i][a];
    }
  }

  lemma NameLast(partials: seq<seq<int>>, i: nat, largest: map<int, int>, sizes: map<int, int>)
    requires i < |partials| && NamesPart(partials, i, |partials[i]|, largest, sizes)
    ensures Names(partials[..i + 1], largest, sizes)
  {
    var some := partials[..i + 1];
    forall a, id | 0 <= a < |some| && id in some[a] ensures id in largest && largest[id] <= a {
      assert a < i ==> id in partials[a];
    }
  }

  lemma NameNext(partials: seq<seq<int>>, i: nat, j: nat, largest: map<int, int>, sizes: map<int, int>)
    requires Decreasing(partials) && i < |partials| && j < |partials[i]| && NamesPart(partials, i, j, largest, sizes)
    ensures var id, size := partials[i][j], |partials[i]|;
      if (if id in sizes then sizes[id] else 0) < size
      then NamesPart(partials, i, j + 1, largest[id := i], sizes[id := size])
      else NamesPart(partials, i, j + 1, largest, sizes)
  {
    var id := partials[i][j];
    assert id in largest ==> sizes[id] >= |partials[i]|;
  }

  method NameOne(partials: seq<seq<int>>, i: nat, largest: map<int, int>, sizes: map<int, int>)
      returns (largest': map<int, int>, sizes': map<int, int>)
    requires i < |partials| && Names(partials[..i], largest, sizes) && Decreasing(partials)
    ensures Names(partials[..i + 1], largest', sizes')
  {
    hide Names, NamesPart;
    largest', sizes' := largest, sizes;
    var partial := partials[i];
    NameFirst(partials, i, largest, sizes);
    for j := 0 to |partial|
      invariant NamesPart(partials, i, j, largest', sizes')
    {
      var id := partial[j];
      NameNext(partials, i, j, largest', sizes');
      if (if id in sizes' then sizes'[id] else 0) < |partial| {
        sizes' := sizes'[id := |partial|];
        largest' := largest'[id := i];
      }
    }
    NameLast(partials, i, largest', sizes');
  }

  method LongestFirst(found: seq<seq<int>>) returns (partials: seq<seq<int>>)
    ensures multiset(partials) == multiset(found) && Decreasing(partials) && forall p :: p in partials ==> p in found
  {
    partials := Sort(found, (a: seq<int>, b: seq<int>) => |a| > |b|);
    forall p | p in partials ensures p in found {
      assert p in multiset(found);
    }
  }

  /** The partial linearizations `found` in some order, longest first, with their states, and for each operation in
      any of them a longest one that has it. */
  ghost predicate Draws<S, V>(m: Model<S, V>, h: seq<Entry<V>>, n: nat, describe: (V, V) -> string,
      found: seq<seq<int>>, partials: seq<seq<int>>, d: Drawing<S>)
    requires WellFormed(h, n)
  {
    && |d.history| == n && (forall id :: 0 <= id < n ==> d.history[id] == ElementOf(h, n, describe, id))
    && multiset(partials) == multiset(found) && Decreasing(partials) && |d.partials| == |partials|
    && (forall i :: 0 <= i < |partials| ==>
          Replays(m, h, n, partials[i], d.partials[i]) && |d.partials[i]| == |partials[i]|)
    && (forall id :: id in d.largest ==> 0 <= d.largest[id] < |partials| && id in partials[d.largest[id]])
    && (forall i, id :: 0 <= i < |partials| && id in partials[i] ==>
          id in d.largest && |partials[i]| <= |partials[d.largest[id]]|)
  }

  /** All partial linearizations, longest first, with their states. */
  method Replay<S, V>(model: Model<S, V>, history: seq<Entry<V>>, n: nat, describe: (V, V) -> string,
      found: seq<seq<int>>) returns (partials: seq<seq<int>>, drawing: Drawing<S>)
    requires WellFormed(history, n) && forall p :: p in found ==> Partial(model, history, n, p)
    ensures Draws(model, history, n, describe, found, partials, drawing)
  {
    hide WellFormed, Partial, Find, Replays, Names, Decreasing, ElementOf;
    var elements, callValue, returnValue := CollectValues(history, n, describe);
    partials := LongestFirst(found);
    var linearizations: seq<seq<Step<S>>>, largest: map<int, int> := [], map[];
    var sizes: map<int, int> := map[];
    NameNone(partials);
    for i := 0 to |partials|
      invariant |linearizations| == i && Names(partials[..i], largest, sizes)
      invariant forall j :: 0 <= j < i ==>
        Replays(model, history, n, partials[j], linearizations[j]) && |linearizations[j]| == |partials[j]|
    {
      assert partials[i] in partials;
      var steps := ReplayOne(model, history, n, partials[i], callValue, returnValue);
      linearizations := linearizations + [steps];
      largest, sizes := NameOne(partials, i, largest, sizes);
    }
    NamesLongest(partials, largest, sizes);
    drawing := Drawing(elements, linearizations, largest);
  }

  lemma NameNone(partials: seq<seq<int>>)
    ensures Names(partials[..0], map[], map[])
  {
  }

  lemma NamesLongest(partials: seq<seq<int>>, largest: map<int, int>, sizes: map<int, int>)
    requires Names(partials[..|partials|], largest, sizes) && Decreasing(partials)
    ensures forall id :: id in largest ==> 0 <= largest[id] < |partials| && id in partials[largest[id]]
    ensures forall i, id :: 0 <= i < |partials| && id in partials[i] ==>
      id in largest && |partials[i]| <= |partials[largest[id]]|
  {
    assert partials[..|partials|] == partials;
  }

  /** The drawings of all partitions. */
  method ComputeData<S, V>(model: Model<S, V>, history: seq<seq<Entry<V>>>, describe: (V, V) -> string,
      info: seq<seq<seq<int>>>) returns (data: seq<Drawing<S>>, ghost partials: seq<seq<seq<int>>>)
    requires |info| == |history| && forall i :: 0 <= i < |history| ==> WellFormed(history[i], |history[i]| / 2)
    requires forall i, p :: 0 <= i < |info| && p in info[i] ==> Partial(model, history[i], |history[i]| / 2, p)
    ensures |data| == |partials| == |history|
    ensures forall i :: 0 <= i < |data| ==>
      Draws(model, history[i], |history[i]| / 2, describe, info[i], partials[i], data[i])
  {
    hide WellFormed, Partial, Draws;
    data, partials := [], [];
    for i := 0 to |history|
      invariant |data| == |partials| == i
      invariant forall j :: 0 <= j < i ==>
        Draws(model, history[j], |history[j]| / 2, describe, info[j], partials[j], data[j])
    {
      var sorted, drawing := Replay(model, history[i], |history[i]| / 2, describe, info[i]);
      data, partials := data + [drawing], partials + [sorted];
    }
  }
}

/** Checking and drawing: whatever the check records can be replayed, also after a timeout. */
module CheckedDrawing {
  import opened Linearizability
  import opened Histories
  import opened Entries
  import opened ParallelChecker
  import opened Visualization

  method CheckAndDraw<S(==, !new), V(0, !new)>(model: Model<S, V>, history: seq<seq<Entry<V>>>,
      describe: (V, V) -> string, events: seq<Arrival>, kills: nat -> nat -> bool)
      returns (result: CheckResult, info: seq<seq<seq<int>>>, data: seq<Drawing<S>>, ghost partials: seq<seq<seq<int>>>)
    requires forall i :: 0 <= i < |history| ==> WellFormed(history[i], |history[i]| / 2)
    requires history != [] && Schedule(events, |history|)
    ensures result == Ok ==> forall i :: 0 <= i < |history| ==> HasLinearization(model, history[i], |history[i]| / 2)
    ensures result == Illegal ==>
      exists i :: 0 <= i < |history| && !HasLinearization(model, history[i], |history[i]| / 2)
    ensures result == Unknown ==> exists j :: StoppedAt(model, history, events, j)
    ensures |info| == |data| == |partials| == |history|
    ensures forall i :: 0 <= i < |data| ==>
      Draws(model, history[i], |history[i]| / 2, describe, info[i], partials[i], data[i])
    ensures TimedOut !in events ==> forall i :: 0 <= i < |data| ==> Exhaustive(model, history[i], info[i])
  {
    hide WellFormed, Partial, Draws, Exhaustive, Schedule, HasLinearization, StoppedAt;
    result, info := CheckParallel(model, history, true, events, kills);
    assert forall i, p :: 0 <= i < |info| && p in info[i] ==> Partial(model, history[i], |history[i]| / 2, p) by {
      assert forall i :: 0 <= i < |info| ==> AllPartial(model, history[i], info[i]);
    }
    data, partials := ComputeData(model, history, describe, info);
  }

  /** However the events are sorted, an operation is drawn for its client, from its call to its return. */
  lemma DrawnAsCalled<V>(entries: seq<Entry<V>>, ops: seq<Operation<V>>, describe: (V, V) -> string, i: nat)
    requires WellFormed(entries, |ops|) && Lists(entries, ops) && i < |ops|
    ensures var x := ops[i];
      ElementOf(entries, |ops|, describe, i) == Element(x.clientId, x.call, x.ret, describe(x.input, x.output))
  {
    Positions(entries, ops, i);
    hide WellFormed, Lists;
  }
}
