/**
 The list as an object with intrusive nodes, run by one thread at a time: what
 each operation does to the links in place, and the rotation made by `remove`.
 */
module FifoListObject {
  import opened Tally

  class Node {
    var next: Node?

    constructor ()
      ensures next == null
    {
      next := null;
    }
  }

  /** Takes nodes from the front, at most `turns` times, and puts them back at the end until `x` turns up. */
  function RemoveFrom<T(==)>(q: seq<T>, x: T, turns: nat): (bool, seq<T>)
    decreases turns
  {
    if turns == 0 || q == [] then (false, q)
    else if q[0] == x then (true, q[1..])
    else RemoveFrom(q[1..] + [q[0]], x, turns - 1)
  }

  lemma DoubledCount(n: nat)
    ensures 2 * (n % WORD) % WORD == 2 * n % WORD
  {
  }

  class ConcurrentFifoList {
    var head: Node?
    var tail: Node?
    var count: int
    ghost var nodes: seq<Node>

    ghost predicate Valid()
      reads this, nodes
    {
      && Distinct(nodes)
      && head == (if nodes == [] then null else nodes[0])
      && tail == (if nodes == [] then null else nodes[|nodes| - 1])
      && (forall i {:trigger nodes[i].next} :: 0 <= i < |nodes| ==>
            nodes[i].next == if i == |nodes| - 1 then null else nodes[i + 1])
      && count == |nodes| % WORD
    }

    constructor ()
      ensures Valid() && nodes == []
    {
      head, tail, count, nodes := null, null, 0, [];
    }

    method Dequeue() returns (node: Node?)
      requires Valid()
      modifies this, nodes
      ensures Valid()
      ensures old(nodes) == [] ==> node == null && nodes == []
      ensures old(nodes) != [] ==> node == old(nodes)[0] && nodes == old(nodes)[1..] && node.next == null
      ensures forall n :: n in nodes ==> n in old(nodes)
    {
      var oldHead := head;
      if oldHead == null {
        return null;
      }
      head := null;
      var newHead := oldHead.next;
      head := newHead;
      if newHead == null {
        assert tail == nodes[0];
        tail := null;
      }
      oldHead.next := null;
      count := (count - 1) % WORD;
      nodes := nodes[1..];
      node := oldHead;
    }

    method Enqueue(node: Node)
      requires Valid() && node !in nodes
      modifies this, node, nodes
      ensures Valid() && nodes == old(nodes) + [node]
    {
      node.next := null;
      var oldTail := tail;
      tail := node;
      if oldTail != null {
        oldTail.next := node;
      } else {
        head := node;
      }
      count := (count + 1) % WORD;
      nodes := nodes + [node];
    }

    method IsEmpty() returns (empty: bool)
      requires Valid()
      ensures empty <==> nodes == []
    {
      empty := head == null;
    }

    method Count() returns (n: int)
      requires Valid()
      ensures n == |nodes| % WORD
    {
      n := count;
    }

    method Remove(nodeToRemove: Node) returns (removed: bool)
      requires Valid()
      modifies this, nodes
      ensures Valid()
      ensures (removed, nodes) == RemoveFrom(old(nodes), nodeToRemove, 2 * |old(nodes)| % WORD)
      ensures forall n :: n in nodes ==> n in old(nodes)
    {
      ghost var all := set n | n in nodes;
      var initialCount := count;
      var limit := 2 * initialCount % WORD;
      DoubledCount(|nodes|);
      ghost var expected := RemoveFrom(nodes, nodeToRemove, limit);
      var i := 0;
      while i < limit
        invariant 0 <= i <= limit && Valid()
        invariant forall k :: 0 <= k < |nodes| ==> nodes[k] in all
        invariant RemoveFrom(nodes, nodeToRemove, limit - i) == expected
        modifies this, all
      {
        ghost var q := nodes;
        var node := Dequeue();
        if node == null {
          return false;
        }
        if node == nodeToRemove {
          return true;
        }
        Enqueue(node);
        assert nodes == q[1..] + [q[0]];
        i := i + 1;
      }
      removed := false;
    }
  }

  // ---------------------------------------------------------------------
  // What the rotation amounts to
  // ---------------------------------------------------------------------

  /** Found within the turns: the node is gone and the ones before it have moved to the end. */
  lemma {:induction false} RemoveFinds<T>(q: seq<T>, x: T, turns: nat, k: nat)
    requires k < |q| && k < turns && q[k] == x && x !in q[..k]
    ensures RemoveFrom(q, x, turns) == (true, q[k + 1..] + q[..k])
    decreases turns
  {
    if k > 0 {
      var r := q[1..] + [q[0]];
      assert q[..k][0] == q[0];
      assert forall j :: 0 <= j < k - 1 ==> r[j] == q[..k][j + 1];
      RemoveFinds(r, x, turns - 1, k - 1);
      assert r[k..] + r[..k - 1] == q[k + 1..] + q[..k];
    } else {
      assert q[1..] + q[..0] == q[1..];
    }
  }

  /** Not found: the list has been rotated once per turn. */
  lemma {:induction false} RemoveMisses<T>(q: seq<T>, x: T, turns: nat)
    requires turns <= |q| && x !in q[..turns]
    ensures RemoveFrom(q, x, turns) == (false, q[turns..] + q[..turns])
    decreases turns
  {
    if turns > 0 {
      var r := q[1..] + [q[0]];
      assert q[..turns][0] == q[0];
      assert forall j :: 0 <= j < turns - 1 ==> r[j] == q[..turns][j + 1];
      RemoveMisses(r, x, turns - 1);
      assert r[turns - 1..] + r[..turns - 1] == q[turns..] + q[..turns];
    } else {
      assert q[0..] + q[..0] == q;
    }
  }

  lemma {:induction false} RemoveSplits<T>(q: seq<T>, x: T, first: nat, second: nat)
    requires x !in q && first <= |q|
    ensures RemoveFrom(q, x, first + second) == RemoveFrom(q[first..] + q[..first], x, second)
    decreases first
  {
    if first == 0 {
      assert q[0..] + q[..0] == q;
    } else {
      var r := q[1..] + [q[0]];
      RemoveSplits(r, x, first - 1, second);
      assert r[first - 1..] + r[..first - 1] == q[first..] + q[..first];
    }
  }

  /** Two full rotations over a list without `x` restore its order. */
  lemma {:induction false} RemoveAbsent<T>(q: seq<T>, x: T)
    requires x !in q
    ensures RemoveFrom(q, x, 2 * |q|) == (false, q)
  {
    RemoveSplits(q, x, |q|, |q|);
    assert q[|q|..] + q[..|q|] == q;
    RemoveMisses(q, x, |q|);
  }

  /**
   On a list of fewer than 2^63 distinct nodes with an exact count, `remove`
   reports true exactly when the node is present; the rest keeps its cyclic
   order, and an absent node leaves the list as it was.
   */
  lemma {:induction false} RemoveCorrect<T>(q: seq<T>, x: T)
    requires Distinct(q) && |q| < WORD / 2
    ensures var (removed, rest) := RemoveFrom(q, x, 2 * |q| % WORD);
            && (removed <==> x in q)
            && (!removed ==> rest == q)
            && (forall k :: 0 <= k < |q| && q[k] == x ==> rest == q[k + 1..] + q[..k])
  {
    if x in q {
      var k :| 0 <= k < |q| && q[k] == x;
      RemoveFinds(q, x, 2 * |q|, k);
    } else {
      RemoveAbsent(q, x);
    }
  }

  /**
   At any length: the doubled count wraps around the machine word, and the node
   is removed if and only if it stands before the wrapped bound.
   */
  lemma {:induction false} RemoveVerdict<T>(q: seq<T>, x: T, k: nat)
    requires Distinct(q) && k < |q| && q[k] == x
    ensures RemoveFrom(q, x, 2 * |q| % WORD).0 <==> k < 2 * |q| % WORD
  {
    var turns := 2 * |q| % WORD;
    if k < turns {
      RemoveFinds(q, x, turns, k);
    } else {
      RemoveMisses(q, x, turns);
    }
  }

  /** The bound wraps to zero at 2^63 nodes, more than fit in memory: the arithmetic edge of RemoveCorrect. */
  lemma RemoveOverflows<T>(q: seq<T>)
    requires Distinct(q) && |q| == WORD / 2
    ensures q[0] in q && RemoveFrom(q, q[0], 2 * |q| % WORD) == (false, q)
  {
  }
}
