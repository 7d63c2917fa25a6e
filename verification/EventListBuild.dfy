/** Building the linked list from a history. */
module EventListBuild {
  import opened Histories
  import opened EventList

  /** Nodes `from`, `from` + 1, ... of the list, each pointing to its neighbours. */
  ghost predicate Straight<V(0)>(nodes: seq<Node<V>>, from: nat)
    reads nodes
  {
    && (forall i :: 0 <= i < |nodes| ==> nodes[i].pos == from + i)
    && (forall i {:trigger nodes[i].next} :: 0 <= i < |nodes| ==> nodes[i].next == At(nodes, i + 1))
    && (forall i {:trigger nodes[i].prev} :: 0 <= i < |nodes| ==>
      nodes[i].prev == if i == 0 then null else nodes[i - 1])
  }

  /** Puts `n` in front of `mark`, in the middle of a list as well as at its start. */
  method InsertBefore<V(0)>(n: Node<V>, mark: Node?<V>) returns (r: Node<V>)
    requires n != mark && (mark != null ==> mark.prev != n && mark.prev != mark)
    requires n.next == null && n.prev == null
    modifies n, mark, if mark == null then null else mark.prev
    ensures r == n && n.next == mark
    ensures mark == null ==> n.prev == null
    ensures mark != null ==> mark.prev == n && mark.next == old(mark.next) && n.prev == old(mark.prev)
    ensures mark != null && n.prev != null ==> n.prev.next == n && n.prev.prev == old(mark.prev.prev)
  {
    if mark != null {
      var beforeMark := mark.prev;
      mark.prev := n;
      n.next := mark;
      if beforeMark != null {
        n.prev := beforeMark;
        beforeMark.next := n;
      }
    }
    return n;
  }

  method Prepend<V(0)>(n: Node<V>, mark: Node?<V>, ghost nodes: seq<Node<V>>) returns (r: Node<V>)
    requires n.next == null && n.prev == null && n !in nodes
    requires Straight(nodes, n.pos + 1) && mark == At(nodes, 0)
    modifies n, mark
    ensures r == n && Straight([n] + nodes, n.pos)
  {
    assert mark != null ==> nodes[0].prev == null;
    r := InsertBefore(n, mark);
    ghost var all := [n] + nodes;
    forall i | 0 < i < |all| ensures all[i] == nodes[i - 1] && all[i].pos == n.pos + i
      && all[i].next == At(all, i + 1) && all[i].prev == all[i - 1] {}
  }

  ghost function ReturnIndex<V>(h: seq<Entry<V>>, n: nat, i: nat): (r: nat)
    requires WellFormed(h, n) && i < |h|
    ensures i <= r < |h|
  {
    RetPos(h, h[i].id)
  }

  /** The nodes carry the entries of `h` from `from` on, and each call points to its return. */
  ghost predicate Carries<V(0)>(nodes: seq<Node<V>>, h: seq<Entry<V>>, n: nat, from: nat)
    requires WellFormed(h, n)
  {
    && from + |nodes| == |h|
    && (forall i :: from <= i < |h| ==> nodes[i - from].id == h[i].id && nodes[i - from].value == h[i].value)
    && (forall i {:trigger h[i].isReturn} :: from <= i < |h| ==>
      nodes[i - from].partner == if h[i].isReturn then null else At(nodes, ReturnIndex(h, n, i) - from))
  }

  ghost predicate Returns<V(0)>(partners: map<int, Node<V>>, nodes: seq<Node<V>>, h: seq<Entry<V>>, n: nat, from: nat)
    requires WellFormed(h, n) && from + |nodes| == |h|
  {
    forall id :: 0 <= id < n && from <= RetPos(h, id) ==>
      id in partners && partners[id] == nodes[RetPos(h, id) - from]
  }

  lemma CarriesMore<V(0)>(entry: Node<V>, partners: map<int, Node<V>>, nodes: seq<Node<V>>, h: seq<Entry<V>>, n: nat,
      i: nat)
    requires WellFormed(h, n) && i < |h| && Carries(nodes, h, n, i + 1) && Returns(partners, nodes, h, n, i + 1)
    requires entry.id == h[i].id && entry.value == h[i].value
    requires h[i].isReturn ==> entry.partner == null
    requires !h[i].isReturn ==> h[i].id in partners && entry.partner == partners[h[i].id]
    ensures Carries([entry] + nodes, h, n, i)
    ensures Returns(if h[i].isReturn then partners[h[i].id := entry] else partners, [entry] + nodes, h, n, i)
  {
    hide Find, Returns, WellFormed, At, ReturnIndex;
    ReturnsMore(entry, partners, nodes, h, n, i);
    var all := [entry] + nodes;
    forall j | i <= j < |h| ensures all[j - i].id == h[j].id && all[j - i].value == h[j].value {
      if j > i { assert all[j - i] == nodes[j - i - 1]; }
    }
    forall j | i <= j < |h|
      ensures all[j - i].partner == if h[j].isReturn then null else At(all, ReturnIndex(h, n, j) - i)
    {
      PartnerMore(entry, partners, nodes, h, n, i, j);
    }
  }

  lemma PartnerMore<V(0)>(entry: Node<V>, partners: map<int, Node<V>>, nodes: seq<Node<V>>, h: seq<Entry<V>>, n: nat,
      i: nat, j: nat)
    requires WellFormed(h, n) && i <= j < |h| && Carries(nodes, h, n, i + 1) && Returns(partners, nodes, h, n, i + 1)
    requires h[i].isReturn ==> entry.partner == null
    requires !h[i].isReturn ==> h[i].id in partners && entry.partner == partners[h[i].id]
    ensures ([entry] + nodes)[j - i].partner ==
      if h[j].isReturn then null else At([entry] + nodes, ReturnIndex(h, n, j) - i)
  {
    hide Find;
    var all := [entry] + nodes;
    assert j == Find(h, h[j].id, h[j].isReturn);
    if !h[j].isReturn {
      var r := ReturnIndex(h, n, j);
      assert CallPos(h, h[j].id) < RetPos(h, h[j].id);
      assert all[r - i] == nodes[r - i - 1];
    }
    if j > i { assert all[j - i] == nodes[j - i - 1]; }
  }

  lemma ReturnsMore<V(0)>(entry: Node<V>, partners: map<int, Node<V>>, nodes: seq<Node<V>>, h: seq<Entry<V>>, n: nat,
      i: nat)
    requires WellFormed(h, n) && i < |h| && i + 1 + |nodes| == |h| && Returns(partners, nodes, h, n, i + 1)
    ensures Returns(if h[i].isReturn then partners[h[i].id := entry] else partners, [entry] + nodes, h, n, i)
  {
    hide Find;
    var all := [entry] + nodes;
    forall id | 0 <= id < n && i <= RetPos(h, id)
      ensures RetPos(h, id) == i <==> h[i].isReturn && h[i].id == id
      ensures RetPos(h, id) > i ==> all[RetPos(h, id) - i] == nodes[RetPos(h, id) - i - 1]
    {
      FindFirst(h, id, true);
      assert i == Find(h, h[i].id, h[i].isReturn);
    }
  }

  method MakeLinkedEntries<V(0)>(entries: seq<Entry<V>>, ghost n: nat)
      returns (root: Node?<V>, ghost nodes: seq<Node<V>>)
    requires WellFormed(entries, n)
    ensures fresh(nodes) && root == At(nodes, 0) && |nodes| == |entries|
    ensures Straight(nodes, 1) && Carries(nodes, entries, n, 0)
  {
    hide Find;
    root, nodes := null, [];
    var partners: map<int, Node<V>> := map[];
    var i := |entries|;
    while i > 0
      invariant 0 <= i <= |entries|
      invariant fresh(nodes) && root == At(nodes, 0)
      invariant Straight(nodes, i + 1) && Carries(nodes, entries, n, i)
      invariant Returns(partners, nodes, entries, n, i)
    {
      i := i - 1;
      var elem := entries[i];
      assert i == Find(entries, elem.id, elem.isReturn);
      assert CallPos(entries, elem.id) < RetPos(entries, elem.id);
      var entry: Node<V>;
      ghost var was := partners;
      if elem.isReturn {
        entry := new Node(elem.value, null, elem.id, i + 1);
        partners := partners[elem.id := entry];
      } else {
        entry := new Node(elem.value, partners[elem.id], elem.id, i + 1);
      }
      CarriesMore(entry, was, nodes, entries, n, i);
      root := Prepend(entry, root, nodes);
      nodes := [entry] + nodes;
    }
  }

  method Length<V(0)>(root: Node?<V>, ghost nodes: seq<Node<V>>) returns (l: nat)
    requires Straight(nodes, 1) && root == At(nodes, 0)
    ensures l == |nodes|
  {
    l := 0;
    var n := root;
    while n != null
      invariant l <= |nodes| && n == At(nodes, l)
      decreases |nodes| - l
    {
      n := n.next;
      l := l + 1;
    }
  }
}
