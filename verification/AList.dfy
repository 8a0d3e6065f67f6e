/** include/alist.h: a doubly linked list of heap nodes. */
module AList {

  function Only<T>(n: Node?<T>): set<Node<T>> { if n == null then {} else {n} }

  class Node<T> {
    var next: Node?<T>
    var prev: Node?<T>
    var elem: T

    constructor (elem: T)
      ensures this.elem == elem && next == null && prev == null
    {
      this.elem := elem;
      next := null;
      prev := null;
    }

    /** Links `link` in behind this node. */
    method LinkNext(link: Node<T>)
      requires link != this && next != this && next != link
      modifies `next, link`next, link`prev, Only(next)`prev
      ensures next == link && link.prev == this && link.next == old(next)
      ensures old(next) != null ==> old(next).prev == link
    {
      link.next := next;
      link.prev := this;
      if next != null { next.prev := link; }
      next := link;
    }

    /** Links `link` in before this node. */
    method LinkPrev(link: Node<T>)
      requires link != this && prev != this && prev != link
      modifies `prev, link`next, link`prev, Only(prev)`next
      ensures prev == link && link.next == this && link.prev == old(prev)
      ensures old(prev) != null ==> old(prev).next == link
    {
      link.next := this;
      link.prev := prev;
      if prev != null { prev.next := link; }
      prev := link;
    }

    /** The destructor takes the node out of the chain. */
    method Unlink()
      requires next != this && prev != this
      modifies Only(next)`prev, Only(prev)`next
      ensures prev != null ==> prev.next == next
      ensures next != null ==> next.prev == prev
    {
      if prev != null { prev.next := next; }
      if next != null { next.prev := prev; }
    }
  }

  /** The node that comes behind, or before, position `i` of a chain. */
  function Behind<T>(nodes: seq<Node<T>>, i: int): Node?<T> {
    if 0 <= i + 1 < |nodes| then nodes[i + 1] else null
  }

  function Before<T>(nodes: seq<Node<T>>, i: int): Node?<T> {
    if 0 < i <= |nodes| then nodes[i - 1] else null
  }

  /** Node `i` of the chain is linked to its neighbours and holds `elem`. */
  ghost predicate Linked<T>(nodes: seq<Node<T>>, i: nat, elem: T)
    requires i < |nodes|
    reads nodes[i]
  {
    nodes[i].next == Behind(nodes, i) && nodes[i].prev == Before(nodes, i) && nodes[i].elem == elem
  }

  ghost predicate Distinct<T>(nodes: seq<Node<T>>) {
    forall i, j :: 0 <= i < j < |nodes| ==> nodes[i] != nodes[j]
  }

  lemma Ends<T>(nodes: seq<Node<T>>)
    ensures Before(nodes, 0) == null && Behind(nodes, |nodes| - 1) == null
    ensures Behind(nodes, -1) == if nodes == [] then null else nodes[0]
    ensures Before(nodes, |nodes|) == if nodes == [] then null else nodes[|nodes| - 1]
  {
  }

  lemma Neighbours<T>(nodes: seq<Node<T>>, i: nat)
    requires i < |nodes|
    ensures Behind(nodes, i) == if i + 1 < |nodes| then nodes[i + 1] else null
    ensures Before(nodes, i) == if i > 0 then nodes[i - 1] else null
  {
  }

  lemma Appended<T>(nodes: seq<Node<T>>, nd: Node<T>)
    ensures Behind(nodes + [nd], |nodes|) == null && Before(nodes + [nd], |nodes|) == Before(nodes, |nodes|)
    ensures Before(nodes + [nd], |nodes| + 1) == nd
    ensures Behind(nodes + [nd], -1) == if nodes == [] then nd else Behind(nodes, -1)
    ensures forall i :: 0 <= i < |nodes| ==> Before(nodes + [nd], i) == Before(nodes, i)
    ensures forall i :: 0 <= i < |nodes| ==>
              Behind(nodes + [nd], i) == if i == |nodes| - 1 then nd else Behind(nodes, i)
  {
  }

  lemma Prepended<T>(nodes: seq<Node<T>>, nd: Node<T>)
    ensures Behind([nd] + nodes, -1) == nd && Behind([nd] + nodes, 0) == Behind(nodes, -1)
    ensures Before([nd] + nodes, 0) == null
    ensures Before([nd] + nodes, |nodes| + 1) == if nodes == [] then nd else Before(nodes, |nodes|)
    ensures forall k :: 0 < k <= |nodes| ==> Behind([nd] + nodes, k) == Behind(nodes, k - 1)
    ensures forall k :: 0 < k <= |nodes| ==>
              Before([nd] + nodes, k) == if k == 1 then nd else Before(nodes, k - 1)
  {
  }

  lemma Removed<T>(nodes: seq<Node<T>>, i: nat)
    requires i < |nodes|
    ensures var now := nodes[..i] + nodes[i + 1..];
            && Behind(now, -1) == (if i == 0 then Behind(nodes, 0) else Behind(nodes, -1))
            && Before(now, |now|) == (if i == |now| then Before(nodes, i) else Before(nodes, |nodes|))
            && (forall k :: 0 <= k < i ==> Before(now, k) == Before(nodes, k))
            && (forall k :: 0 <= k < i ==> Behind(now, k) == if k == i - 1 then Behind(nodes, i) else Behind(nodes, k))
            && (forall k :: i <= k < |now| ==> Behind(now, k) == Behind(nodes, k + 1))
            && (forall k :: i <= k < |now| ==>
                  Before(now, k) == if k == i then Before(nodes, i) else Before(nodes, k + 1))
  {
    var now := nodes[..i] + nodes[i + 1..];
    assert forall k :: i <= k < |now| ==> now[k] == nodes[k + 1];
  }

  class List<T> {
    var head: Node?<T>
    var tail: Node?<T>
    var size: nat
    ghost var nodes: seq<Node<T>>
    ghost var contents: seq<T>

    ghost predicate Valid()
      reads this, nodes
    {
      && size == |nodes| == |contents| && Distinct(nodes)
      && (forall i {:trigger nodes[i]} :: 0 <= i < |nodes| ==> Linked(nodes, i, contents[i]))
      && head == Behind(nodes, -1) && tail == Before(nodes, |nodes|)
    }

    constructor ()
      ensures Valid() && contents == []
    {
      head, tail, size := null, null, 0;
      nodes, contents := [], [];
    }

    method Append(elem: T) returns (nd: Node<T>)
      requires Valid()
      modifies this, Only(tail)
      ensures Valid() && contents == old(contents) + [elem]
      ensures fresh(nd) && nodes == old(nodes) + [nd]
    {
      hide Behind, Before;
      nd := new Node(elem);
      Ends(nodes);
      Appended(nodes, nd);
      if tail != null {
        tail.LinkNext(nd);
      } else {
        head := nd;
      }
      tail := nd;
      size := size + 1;
      nodes, contents := nodes + [nd], contents + [elem];
      forall k | 0 <= k < |nodes| ensures Linked(nodes, k, contents[k]) {
        if k < |nodes| - 1 { assert old(Linked(nodes, k, contents[k])); }
      }
    }

    method Prepend(elem: T) returns (nd: Node<T>)
      requires Valid()
      modifies this, Only(head)
      ensures Valid() && contents == [elem] + old(contents)
      ensures fresh(nd) && nodes == [nd] + old(nodes)
    {
      hide Behind, Before;
      nd := new Node(elem);
      Ends(nodes);
      Prepended(nodes, nd);
      if head != null {
        head.LinkPrev(nd);
      } else {
        tail := nd;
      }
      head := nd;
      size := size + 1;
      nodes, contents := [nd] + nodes, [elem] + contents;
      forall k | 0 <= k < |nodes| ensures Linked(nodes, k, contents[k]) {
        if k > 0 { assert old(Linked(nodes, k - 1, contents[k - 1])); }
      }
    }

    /** Takes the node `iter`, at position `i`, out of the list and returns the one behind it. */
    method Remove(iter: Node<T>, ghost i: nat) returns (newiter: Node?<T>)
      requires Valid() && i < |nodes| && nodes[i] == iter
      modifies this, Only(iter.next), Only(iter.prev)
      ensures Valid() && contents == old(contents)[..i] + old(contents)[i + 1..]
      ensures nodes == old(nodes)[..i] + old(nodes)[i + 1..]
      ensures newiter == if i < |nodes| then nodes[i] else null
    {
      hide Behind, Before;
      Ends(nodes);
      Removed(nodes, i);
      Neighbours(nodes, i);
      assert Linked(nodes, i, contents[i]);
      if iter == head { head := iter.next; }
      if iter == tail { tail := iter.prev; }
      newiter := iter.next;
      iter.Unlink();
      size := size - 1;
      nodes, contents := nodes[..i] + nodes[i + 1..], contents[..i] + contents[i + 1..];
      forall k | 0 <= k < |nodes| ensures Linked(nodes, k, contents[k]) {
        var was := if k < i then k else k + 1;
        assert nodes[k] == old(nodes)[was] && old(Linked(nodes, was, contents[was]));
      }
    }

    /** An assignment through the reference to an element. */
    method Store(iter: Node<T>, ghost i: nat, elem: T)
      requires Valid() && i < |nodes| && nodes[i] == iter
      modifies `contents, iter`elem
      ensures Valid() && contents == old(contents)[i := elem]
    {
      hide Behind, Before;
      iter.elem := elem;
      contents := contents[i := elem];
      forall k | 0 <= k < |nodes| ensures Linked(nodes, k, contents[k]) {
        assert old(Linked(nodes, k, contents[k]));
      }
    }

    method RemoveFirst()
      requires Valid()
      modifies this, nodes
      ensures Valid() && contents == if old(contents) == [] then [] else old(contents)[1..]
      ensures nodes == if old(nodes) == [] then [] else old(nodes)[1..]
    {
      hide Behind, Before;
      Ends(nodes);
      if size > 0 {
        Neighbours(nodes, 0);
        var next := Remove(head, 0);
      }
    }

    method RemoveLast()
      requires Valid()
      modifies this, nodes
      ensures Valid() && contents == if old(contents) == [] then [] else old(contents)[..|old(contents)| - 1]
    {
      hide Behind, Before;
      Ends(nodes);
      if size > 0 {
        Neighbours(nodes, size - 1);
        var next := Remove(tail, size - 1);
      }
    }

    method Clear()
      requires Valid()
      modifies this, nodes
      ensures Valid() && contents == [] && nodes == []
    {
      hide Behind, Before;
      while size > 0
        invariant Valid() && forall n :: n in nodes ==> n in old(nodes)
        decreases size
      {
        Ends(nodes);
        Neighbours(nodes, 0);
        assert Linked(nodes, 0, contents[0]);
        assert Only(head.prev) == {} && Only(head.next) == if size > 1 then {nodes[1]} else {};
        assert size > 1 ==> nodes[1] in nodes && nodes[1] in old(nodes);
        var next := Remove(head, 0);
      }
    }

    /** The first element equal to `needle`, in the sense of the element type's own comparison, or the end. */
    method Find(needle: T, eq: (T, T) -> bool) returns (iter: Node?<T>, ghost i: nat)
      requires Valid()
      ensures i <= |nodes| && iter == if i < |nodes| then nodes[i] else null
      ensures i < |nodes| ==> eq(contents[i], needle)
      ensures forall k :: 0 <= k < i ==> !eq(contents[k], needle)
      ensures iter == null <==> forall k :: 0 <= k < |contents| ==> !eq(contents[k], needle)
    {
      hide Behind, Before;
      Ends(nodes);
      iter, i := head, 0;
      while iter != null
        invariant i <= |nodes| && iter == if i < |nodes| then nodes[i] else null
        invariant forall k :: 0 <= k < i ==> !eq(contents[k], needle)
        decreases |nodes| - i
      {
        assert Linked(nodes, i, contents[i]);
        Neighbours(nodes, i);
        if eq(iter.elem, needle) { break; }
        iter, i := iter.next, i + 1;
      }
    }

    /** Another list does not notice that this one grows. */
    method AppendBeside(elem: T, other: List<T>)
      requires Valid() && other.Valid() && other != this && forall n :: n in nodes ==> n !in other.nodes
      modifies this, Only(tail)
      ensures Valid() && contents == old(contents) + [elem]
      ensures |nodes| == old(|nodes|) + 1 && nodes[..old(|nodes|)] == old(nodes) && fresh(nodes[old(|nodes|)])
      ensures tail == nodes[old(|nodes|)]
      ensures other.Valid() && other.contents == old(other.contents) && other.nodes == old(other.nodes)
      ensures forall n :: n in nodes ==> n !in other.nodes
    {
      hide Behind, Before;
      Ends(nodes);
      assert forall n :: n in Only(tail) ==> n !in other.nodes;
      var nd := Append(elem);
      Ends(nodes);
      forall k | 0 <= k < |other.nodes| ensures Linked(other.nodes, k, other.contents[k]) {
        assert old(Linked(other.nodes, k, other.contents[k]));
      }
    }

    /** Appending a list to itself does nothing. */
    method AppendList(rhs: List<T>)
      requires Valid() && rhs.Valid()
      requires rhs != this ==> forall n :: n in nodes ==> n !in rhs.nodes
      modifies this, Only(tail)
      ensures Valid() && contents == old(contents) + if rhs == this then [] else old(rhs.contents)
      ensures rhs != this ==> rhs.Valid() && rhs.contents == old(rhs.contents)
    {
      hide Behind, Before;
      if rhs != this {
        Ends(rhs.nodes);
        var iter := rhs.head;
        ghost var i := 0;
        while iter != null
          invariant Valid() && rhs.Valid() && rhs.contents == old(rhs.contents)
          invariant i <= |rhs.nodes| && iter == if i < |rhs.nodes| then rhs.nodes[i] else null
          invariant contents == old(contents) + rhs.contents[..i]
          invariant tail == old(tail) || (tail != null && fresh(tail))
          invariant forall n :: n in nodes ==> n !in rhs.nodes
          decreases |rhs.nodes| - i
        {
          assert Linked(rhs.nodes, i, rhs.contents[i]);
          Neighbours(rhs.nodes, i);
          AppendBeside(iter.elem, rhs);
          assert Linked(rhs.nodes, i, rhs.contents[i]);
          iter, i := iter.next, i + 1;
        }
      }
    }
  }

  /** The elements met on the way along `next` (or `prev`) until the chain ends, at most `steps` of them. */
  ghost function Forward<T>(n: Node?<T>, steps: nat, nodes: seq<Node<T>>): seq<T>
    reads nodes
  {
    if steps == 0 || n == null || n !in nodes then [] else [n.elem] + Forward(n.next, steps - 1, nodes)
  }

  ghost function Backward<T>(n: Node?<T>, steps: nat, nodes: seq<Node<T>>): seq<T>
    reads nodes
  {
    if steps == 0 || n == null || n !in nodes then [] else Backward(n.prev, steps - 1, nodes) + [n.elem]
  }

  lemma {:induction false} WalkForward<T>(l: List<T>, i: nat, steps: nat)
    requires l.Valid() && i <= l.size && steps >= l.size - i
    ensures Forward(Behind(l.nodes, i - 1), steps, l.nodes) == l.contents[i..]
    decreases l.size - i
  {
    hide Behind, Before;
    if i < l.size {
      assert Linked(l.nodes, i, l.contents[i]);
      Neighbours(l.nodes, i);
      if i > 0 { Neighbours(l.nodes, i - 1); }
      Ends(l.nodes);
      WalkForward(l, i + 1, steps - 1);
    } else {
      Ends(l.nodes);
    }
  }

  lemma {:induction false} WalkBackward<T>(l: List<T>, i: nat, steps: nat)
    requires l.Valid() && i <= l.size && steps >= i
    ensures Backward(Before(l.nodes, i), steps, l.nodes) == l.contents[..i]
    decreases i
  {
    hide Behind, Before;
    Ends(l.nodes);
    if i > 0 {
      assert Linked(l.nodes, i - 1, l.contents[i - 1]);
      Neighbours(l.nodes, i - 1);
      if i < l.size { Neighbours(l.nodes, i); }
      WalkBackward(l, i - 1, steps - 1);
    }
  }

  /** Walking either way from either end, for as many steps as one likes, meets exactly the contents, whose
      number is the size. */
  lemma {:induction false} WalksAgree<T>(l: List<T>, steps: nat)
    requires l.Valid() && steps >= l.size
    ensures Forward(l.head, steps, l.nodes) == Backward(l.tail, steps, l.nodes) == l.contents
    ensures |l.contents| == l.size
  {
    hide Behind, Before;
    WalkForward(l, 0, steps);
    WalkBackward(l, l.size, steps);
  }
}
