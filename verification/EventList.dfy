/** The doubly linked list of call and return events that the search edits in place. */
module EventList {

  /** `partner` is the matching return of a call and null in a return node.
      `pos` is the node's index among all nodes, the head being 0. */
  class Node<V(0)> {
    const value: V
    const partner: Node?<V>
    const id: int
    ghost const pos: nat
    var next: Node?<V>
    var prev: Node?<V>

    constructor (value: V, partner: Node?<V>, id: int, ghost pos: nat)
      ensures this.value == value && this.partner == partner && this.id == id && this.pos == pos
      ensures next == null && prev == null
    {
      this.value, this.partner, this.id, this.pos := value, partner, id, pos;
      next, prev := null, null;
    }

    constructor Head()
      ensures partner == null && id == -1 && pos == 0 && next == null && prev == null
    {
      partner, id, pos := null, -1, 0;
      next, prev := null, null;
    }
  }

  /** The pointers of all nodes, as indices; the number of nodes stands for nil. */
  datatype Links = Links(next: seq<nat>, prev: seq<nat>) {
    ghost predicate Sized(len: nat) {
      && |next| == |prev| == len
      && (forall i :: 0 <= i < len ==> i < next[i] <= len)
      && (forall i :: 0 < i < len ==> prev[i] < i)
    }

    /** The node at `p` is one that its neighbours point to. */
    ghost predicate Joined(p: nat)
      requires Sized(|next|)
    {
      && 0 < p < |next|
      && next[prev[p]] == p
      && (next[p] < |next| ==> prev[next[p]] == p)
    }

    ghost function Unlink(p: nat): (r: Links)
      requires Sized(|next|) && 0 < p < |next|
      ensures r.Sized(|next|)
    {
      Links(next[prev[p] := next[p]], if next[p] < |next| then prev[next[p] := prev[p]] else prev)
    }

    ghost function Relink(p: nat): (r: Links)
      requires Sized(|next|) && 0 < p < |next|
      ensures r.Sized(|next|)
    {
      Links(next[prev[p] := p], if next[p] < |next| then prev[next[p] := p] else prev)
    }

    ghost function Lift(p: nat, m: nat): (r: Links)
      requires Sized(|next|) && 0 < p < |next| && 0 < m < |next|
      ensures r.Sized(|next|)
    {
      Unlink(p).Unlink(m)
    }

    ghost function Unlift(p: nat, m: nat): (r: Links)
      requires Sized(|next|) && 0 < p < |next| && 0 < m < |next|
      ensures r.Sized(|next|)
    {
      Relink(m).Relink(p)
    }

    lemma RelinkUndoesUnlink(p: nat)
      requires Sized(|next|) && Joined(p)
      ensures Unlink(p).Relink(p) == this
    {
      var u := Unlink(p);
      assert u.next[p] == next[p] && u.prev[p] == prev[p];
      assert u.Relink(p).next == next;
      assert u.Relink(p).prev == prev;
    }

    lemma JoinedAfterUnlink(p: nat, m: nat)
      requires Sized(|next|) && Joined(p) && Joined(m) && p < m
      ensures Unlink(p).Joined(m)
    {
    }

    /** Unlifting restores every pointer, whether or not the call and its return are adjacent
        and whether or not the return is last. */
    lemma UnliftUndoesLift(p: nat, m: nat)
      requires Sized(|next|) && Joined(p) && Joined(m) && p < m
      ensures Lift(p, m).Unlift(p, m) == this
    {
      JoinedAfterUnlink(p, m);
      Unlink(p).RelinkUndoesUnlink(m);
      RelinkUndoesUnlink(p);
    }

    /** The linked indices, in list order, are exactly those of `a`. */
    ghost predicate Chain(a: set<nat>) {
      && Sized(|next|)
      && 0 in a
      && (forall i :: i in a ==> i < |next|)
      && (forall i {:trigger next[i]} :: i in a ==> next[i] == |next| || next[i] in a)
      && (forall i, j {:trigger next[i], j in a} :: i in a && i < j < next[i] ==> j !in a)
      && (forall i {:trigger prev[i]} :: i in a && i != 0 ==> prev[i] in a && next[prev[i]] == i)
      && (forall i {:trigger next[i]} :: i in a && next[i] < |next| ==> prev[next[i]] == i)
    }

    lemma ChainUnlink(a: set<nat>, p: nat)
      requires Chain(a) && p in a && p != 0
      ensures Unlink(p).Chain(a - {p})
    {
      var u, b := Unlink(p), prev[p];
      forall i, j | i in a - {p} && i < j < u.next[i] ensures j !in a - {p} {
        if i == b && j >= p { assert j == p || p < j < next[p]; }
      }
    }

    lemma ChainLift(a: set<nat>, p: nat, m: nat)
      requires Chain(a) && p in a && m in a && 0 < p < m
      ensures Sized(|next|) && m < |next|
      ensures Lift(p, m).Chain(a - {p, m}) && Lift(p, m).Unlift(p, m) == this
      ensures Lift(p, m).next[p] == next[p] <= m
    {
      assert !(p < m < next[p]);
      ChainUnlink(a, p);
      Unlink(p).ChainUnlink(a - {p}, m);
      assert a - {p} - {m} == a - {p, m};
      UnliftUndoesLift(p, m);
    }
  }

  ghost function At<V(0)>(nodes: seq<Node<V>>, i: nat): (r: Node?<V>)
    ensures r == null <==> i >= |nodes|
  {
    if i < |nodes| then nodes[i] else null
  }

  /** The pointers stored in `nodes` are those of `links`. */
  ghost predicate Stored<V(0)>(nodes: seq<Node<V>>, links: Links)
    reads nodes
  {
    && links.Sized(|nodes|)
    && (forall i :: 0 <= i < |nodes| ==> nodes[i].pos == i && nodes[i].next == At(nodes, links.next[i]))
    && (forall i :: 0 < i < |nodes| ==> nodes[i].prev == nodes[links.prev[i]])
  }

  lemma StoredNext<V(0)>(nodes: seq<Node<V>>, links: Links, i: nat)
    requires Stored(nodes, links) && i < |nodes|
    ensures nodes[i].next == At(nodes, links.next[i]) && links.next[i] <= |nodes|
  {
  }

  method SetNext<V(0)>(n: Node<V>, target: Node?<V>, ghost nodes: seq<Node<V>>, ghost links: Links, ghost j: nat)
    requires Stored(nodes, links) && n in nodes && n.pos < j <= |nodes| && target == At(nodes, j)
    modifies n`next
    ensures Stored(nodes, Links(links.next[n.pos := j], links.prev))
  {
    n.next := target;
  }

  method SetPrev<V(0)>(n: Node<V>, target: Node<V>, ghost nodes: seq<Node<V>>, ghost links: Links)
    requires Stored(nodes, links) && n in nodes && target in nodes && target.pos < n.pos
    modifies n`prev
    ensures Stored(nodes, Links(links.next, links.prev[n.pos := target.pos]))
  {
    n.prev := target;
  }

  /** Joins the neighbours of `n`, which itself keeps pointing to them. */
  method Detach<V(0)>(n: Node<V>, ghost nodes: seq<Node<V>>, ghost links: Links, ghost p: nat)
    requires Stored(nodes, links) && 0 < p < |nodes| && nodes[p] == n
    modifies nodes
    ensures Stored(nodes, links.Unlink(p))
  {
    SetNext(n.prev, n.next, nodes, links, links.next[p]);
    if n.next != null {
      SetPrev(n.next, n.prev, nodes, Links(links.next[links.prev[p] := links.next[p]], links.prev));
    }
  }

  /** Makes the neighbours that `n` points to point to `n`. */
  method Attach<V(0)>(n: Node<V>, ghost nodes: seq<Node<V>>, ghost links: Links, ghost p: nat)
    requires Stored(nodes, links) && 0 < p < |nodes| && nodes[p] == n
    modifies nodes
    ensures Stored(nodes, links.Relink(p))
  {
    SetNext(n.prev, n, nodes, links, p);
    if n.next != null {
      SetPrev(n.next, n, nodes, Links(links.next[links.prev[p] := p], links.prev));
    }
  }

  /** Takes a call node and its return out of the list. */
  method Lift<V(0)>(entry: Node<V>, ghost nodes: seq<Node<V>>, ghost links: Links, ghost p: nat, ghost m: nat)
    requires Stored(nodes, links) && 0 < p < m < |nodes| && nodes[p] == entry && nodes[m] == entry.partner
    modifies nodes
    ensures Stored(nodes, links.Lift(p, m))
  {
    Detach(entry, nodes, links, p);
    Detach(entry.partner, nodes, links.Unlink(p), m);
  }

  /** Puts a lifted call node and its return back. */
  method Unlift<V(0)>(entry: Node<V>, ghost nodes: seq<Node<V>>, ghost links: Links, ghost p: nat, ghost m: nat)
    requires Stored(nodes, links) && 0 < p < m < |nodes| && nodes[p] == entry && nodes[m] == entry.partner
    modifies nodes
    ensures Stored(nodes, links.Unlift(p, m))
  {
    Attach(entry.partner, nodes, links, m);
    Attach(entry, nodes, links.Relink(m), p);
  }
}
