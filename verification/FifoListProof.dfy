/** Every access of every thread keeps the list invariant. */
module FifoListProof {
  import opened Tally
  import opened FifoList

  // ---------------------------------------------------------------------
  // Frames: what the move of one thread leaves alone
  // ---------------------------------------------------------------------

  lemma StillHeld(threads: seq<Pc>, t: nat, pc: Pc, node: nat)
    requires t < |threads| && HeldBySome(threads, node)
    requires Holding(threads[t]) && Held(threads[t]) == node ==> Holding(pc) && Held(pc) == node
    ensures HeldBySome(threads[t := pc], node)
  {
    var u :| 0 <= u < |threads| && Holding(threads[u]) && Held(threads[u]) == node;
    assert Holding(threads[t := pc][u]) && Held(threads[t := pc][u]) == node;
  }

  lemma StillLinking(threads: seq<Pc>, t: nat, pc: Pc, a: nat, b: nat)
    requires t < |threads| && Linking(threads, a, b) && threads[t] != Link(a, b)
    ensures Linking(threads[t := pc], a, b)
  {
    var u :| 0 <= u < |threads| && threads[u] == Link(a, b);
    assert threads[t := pc][u] == Link(a, b);
  }

  lemma StillPublishing(threads: seq<Pc>, t: nat, pc: Pc)
    requires t < |threads| && Publishing(threads) && !threads[t].PublishFirst?
    ensures Publishing(threads[t := pc])
  {
    var u :| 0 <= u < |threads| && threads[u].PublishFirst?;
    assert threads[t := pc][u].PublishFirst?;
  }

  /** Thread `t` moves from its program counter in `l` to `pc` in `l'`. */
  ghost predicate Moved(l: List, l': List, t: nat, pc: Pc) {
    t < |l.threads| && l'.threads == l.threads[t := pc]
  }

  lemma OwnedFrame(l: List, v: View, l': List, v': View, t: nat, pc: Pc)
    requires Owned(l, v) && Moved(l, l', t, pc) && l'.inside == l.inside && v'.queue == v.queue
    requires Holding(pc) ==> Holding(l.threads[t]) && Held(pc) == Held(l.threads[t])
    ensures Owned(l', v')
  {
  }

  lemma ConservedFrame(l: List, v: View, l': List, v': View, t: nat, pc: Pc)
    requires Conserved(l, v) && Moved(l, l', t, pc)
    requires forall n :: n in l'.inside && n !in v'.queue && !(Holding(pc) && Held(pc) == n) ==>
               n in l.inside && n !in v.queue && !(Holding(l.threads[t]) && Held(l.threads[t]) == n)
    ensures Conserved(l', v')
  {
    forall n | n in l'.inside && n !in v'.queue
      ensures HeldBySome(l'.threads, n)
    {
      if Holding(pc) && Held(pc) == n {
        assert Holding(l'.threads[t]) && Held(l'.threads[t]) == n;
      } else {
        StillHeld(l.threads, t, pc, n);
      }
    }
  }

  lemma ClaimedFrame(l: List, v: View, l': List, v': View, t: nat, pc: Pc)
    requires ClaimedBy(l, v) && Moved(l, l', t, pc) && v'.claim == v.claim
    requires Claiming(pc) == Claiming(l.threads[t])
    requires Claiming(pc) ==> Held(pc) == Held(l.threads[t])
    ensures ClaimedBy(l', v')
  {
  }

  lemma LinkedFrame(l: List, v: View, l': List, v': View, t: nat, pc: Pc)
    requires Linked(l, v) && Moved(l, l', t, pc)
    requires !l.threads[t].Link? && l'.tail == l.tail && Chain(v') == Chain(v)
    requires forall n :: n in Chain(v) ==> NextOf(l', n) == NextOf(l, n)
    ensures Linked(l', v')
  {
    var c := Chain(v);
    forall k {:trigger NextOf(l, c[k])} | 0 <= k < |c| - 1
      ensures NextOf(l', c[k]) == c[k + 1] || (NextOf(l', c[k]) == NULL && Linking(l'.threads, c[k], c[k + 1]))
    {
      if NextOf(l, c[k]) != c[k + 1] {
        StillLinking(l.threads, t, pc, c[k], c[k + 1]);
      }
    }
  }

  lemma PendingFrame(l: List, v: View, l': List, v': View, t: nat, pc: Pc)
    requires PendingLinks(l, v) && Moved(l, l', t, pc) && !pc.Link?
    requires forall u :: 0 <= u < |l.threads| && u != t && l.threads[u].Link? ==>
               NextOf(l', l.threads[u].prev) == NULL && Follows(Chain(v'), l.threads[u].prev, l.threads[u].node)
    ensures PendingLinks(l', v')
  {
  }

  lemma TokenFrame(l: List, v: View, l': List, v': View, t: nat, pc: Pc)
    requires HeadToken(l, v) && Moved(l, l', t, pc)
    requires l'.head == l.head && v' == v && !pc.PublishFirst? && !l.threads[t].PublishFirst?
    ensures HeadToken(l', v')
  {
    if Publishing(l.threads) {
      StillPublishing(l.threads, t, pc);
    }
  }

  predicate Learns(pc: Pc) {
    Claiming(pc) || pc.SwapTail?
  }

  lemma KnowsFrame(l: List, v: View, l': List, v': View, t: nat, pc: Pc)
    requires AllKnow(l, v) && Moved(l, l', t, pc) && Knows(l', v', pc)
    requires forall u :: 0 <= u < |l.threads| && u != t && Learns(l.threads[u]) ==> Knows(l', v', l.threads[u])
    ensures AllKnow(l', v')
  {
    forall u | 0 <= u < |l'.threads|
      ensures Knows(l', v', l'.threads[u])
    {
      if u != t {
        assert l'.threads[u] == l.threads[u];
        assert Knows(l, v, l.threads[u]);
      }
    }
  }

  lemma CountFrame(l: List, v: View, l': List, v': View, t: nat, pc: Pc)
    requires Counted(l, v) && Moved(l, l', t, pc) && l'.count == l.count
    requires |v'.queue| + Uncounted(pc) == |v.queue| + Uncounted(l.threads[t])
    ensures Counted(l', v')
  {
    TotalUpdate(l.threads, Uncounted, t, pc);
  }

  // ---------------------------------------------------------------------
  // Moves that change no shared state
  // ---------------------------------------------------------------------

  /** Program counters that hold no node, no link and no token. */
  predicate Quiet(pc: Pc) {
    !Holding(pc) && !pc.Link? && !pc.PublishFirst? && !pc.CountUp?
  }

  lemma QuietMove(l: List, v: View, t: nat, pc: Pc)
    requires Inv(l, v) && t < |l.threads| && Quiet(l.threads[t]) && Quiet(pc)
    requires pc.CasHead? ==> pc.top != NULL
    ensures Inv(Goto(l, t, pc), v)
  {
    var l' := Goto(l, t, pc);
    OwnedFrame(l, v, l', v, t, pc);
    ConservedFrame(l, v, l', v, t, pc);
    ClaimedFrame(l, v, l', v, t, pc);
    LinkedFrame(l, v, l', v, t, pc);
    PendingFrame(l, v, l', v, t, pc);
    TokenFrame(l, v, l', v, t, pc);
    KnowsSame(l, v, l', t, pc);
    CountFrame(l, v, l', v, t, pc);
  }

  lemma KnowsSame(l: List, v: View, l': List, t: nat, pc: Pc)
    requires AllKnow(l, v) && Moved(l, l', t, pc) && Knows(l', v, pc) && l'.next == l.next
    ensures AllKnow(l', v)
  {
    forall u | 0 <= u < |l.threads| && u != t
      ensures Knows(l', v, l.threads[u])
    {
      assert Knows(l, v, l.threads[u]);
    }
    KnowsFrame(l, v, l', v, t, pc);
  }

  /** A claiming thread moves on without giving its claim back. */
  lemma ClaimMove(l: List, v: View, t: nat, pc: Pc)
    requires Inv(l, v) && t < |l.threads|
    requires Claiming(l.threads[t]) && Claiming(pc) && Held(pc) == Held(l.threads[t]) && Knows(l, v, pc)
    ensures Inv(Goto(l, t, pc), v)
  {
    var l' := Goto(l, t, pc);
    OwnedFrame(l, v, l', v, t, pc);
    ConservedFrame(l, v, l', v, t, pc);
    ClaimedFrame(l, v, l', v, t, pc);
    LinkedFrame(l, v, l', v, t, pc);
    PendingFrame(l, v, l', v, t, pc);
    TokenFrame(l, v, l', v, t, pc);
    KnowsSame(l, v, l', t, pc);
    CountFrame(l, v, l', v, t, pc);
  }

  // ---------------------------------------------------------------------
  // A thread's own nodes
  // ---------------------------------------------------------------------

  lemma BeginEnqueue(l: List, v: View, t: nat, node: nat)
    requires Inv(l, v) && Enabled(l, Begin(t, Enqueue(node)))
    ensures Inv(Goto(l.(inside := l.inside + {node}), t, ResetNext(node)), v)
  {
    var pc := ResetNext(node);
    var l' := Goto(l.(inside := l.inside + {node}), t, pc);
    assert Owned(l', v);
    ConservedFrame(l, v, l', v, t, pc);
    ClaimedFrame(l, v, l', v, t, pc);
    LinkedFrame(l, v, l', v, t, pc);
    PendingFrame(l, v, l', v, t, pc);
    TokenFrame(l, v, l', v, t, pc);
    KnowsSame(l, v, l', t, pc);
    CountFrame(l, v, l', v, t, pc);
  }

  /** A node in a thread's hands, and not claimed, is on no link and in no chain. */
  lemma HeldApart(l: List, v: View, t: nat)
    requires Inv(l, v) && t < |l.threads| && Holding(l.threads[t]) && !Claiming(l.threads[t])
    ensures Held(l.threads[t]) !in Chain(v)
    ensures forall u :: 0 <= u < |l.threads| && l.threads[u].Link? ==> l.threads[u].prev != Held(l.threads[t])
    ensures forall u :: 0 <= u < |l.threads| && Claiming(l.threads[u]) ==> Held(l.threads[u]) != Held(l.threads[t])
  {
    forall u | 0 <= u < |l.threads| && Claiming(l.threads[u])
      ensures Held(l.threads[u]) != Held(l.threads[t])
    {
      assert u < t || t < u;
    }
    if v.claim.Claimed? {
      assert Held(l.threads[v.claim.thread]) == v.claim.node;
    }
    forall u | 0 <= u < |l.threads| && l.threads[u].Link?
      ensures l.threads[u].prev != Held(l.threads[t])
    {
      assert Follows(Chain(v), l.threads[u].prev, l.threads[u].node);
    }
  }

  /** The chain has no repetition, the claimed node included. */
  lemma ChainDistinct(l: List, v: View)
    requires Owned(l, v) && ClaimedBy(l, v)
    ensures Distinct(Chain(v))
    ensures forall n :: n in Chain(v) ==> n != NULL && n in l.inside
  {
    if v.claim.Claimed? {
      assert Held(l.threads[v.claim.thread]) == v.claim.node;
    }
  }

  /** setNext(nullptr) on a node of one's own, before enqueuing it or after dequeuing it. */
  lemma ClearLink(l: List, v: View, t: nat, pc: Pc)
    requires Inv(l, v) && t < |l.threads|
    requires (l.threads[t].ResetNext? && pc.SwapTail?) || (l.threads[t].ClearNext? && pc.CountDown?)
    requires Held(pc) == Held(l.threads[t])
    ensures Inv(Goto(l.(next := l.next[Held(pc) := NULL]), t, pc), v)
  {
    var l' := Goto(l.(next := l.next[Held(pc) := NULL]), t, pc);
    HeldApart(l, v, t);
    OwnedFrame(l, v, l', v, t, pc);
    ConservedFrame(l, v, l', v, t, pc);
    ClaimedFrame(l, v, l', v, t, pc);
    LinkedFrame(l, v, l', v, t, pc);
    PendingFrame(l, v, l', v, t, pc);
    TokenFrame(l, v, l', v, t, pc);
    ClearKnows(l, v, t, pc, l');
    CountFrame(l, v, l', v, t, pc);
  }

  /** Nobody else has learnt anything about the link that is cleared. */
  lemma ClearKnows(l: List, v: View, t: nat, pc: Pc, l': List)
    requires Inv(l, v) && Moved(l, l', t, pc) && l'.next == l.next[Held(pc) := NULL] && (pc.SwapTail? || pc.CountDown?)
    requires Holding(l.threads[t]) && !Claiming(l.threads[t]) && Held(pc) == Held(l.threads[t])
    ensures AllKnow(l', v)
  {
    HeldApart(l, v, t);
    forall u | 0 <= u < |l.threads| && u != t && Learns(l.threads[u])
      ensures Knows(l', v, l.threads[u])
    {
      assert Knows(l, v, l.threads[u]);
    }
    KnowsFrame(l, v, l', v, t, pc);
  }

  // ---------------------------------------------------------------------
  // The tail exchange and what follows it
  // ---------------------------------------------------------------------

  /** Linearization point of enqueue: the node joins the chain, its link or the head still to be written. */
  lemma SwapTailMove(l: List, v: View, t: nat, node: nat)
    requires Inv(l, v) && t < |l.threads| && l.threads[t] == SwapTail(node)
    ensures var pc := if l.tail != NULL then Link(l.tail, node) else PublishFirst(node);
            Inv(Goto(l.(tail := node), t, pc), v.(queue := v.queue + [node]))
  {
    var pc := if l.tail != NULL then Link(l.tail, node) else PublishFirst(node);
    var l' := Goto(l.(tail := node), t, pc);
    var v' := v.(queue := v.queue + [node]);
    SwapTailFacts(l, v, t, node);
    assert Owned(l', v') by {
      SwapTailOwned(l, v, t, node, l', v', pc);
    }
    assert Conserved(l', v') by {
      ConservedFrame(l, v, l', v', t, pc);
    }
    assert ClaimedBy(l', v') by {
      ClaimedFrame(l, v, l', v', t, pc);
    }
    assert Linked(l', v') by {
      SwapTailLinked(l, v, t, node, l', v', pc);
    }
    assert PendingLinks(l', v') by {
      SwapTailPending(l, v, t, node, l', v', pc);
    }
    assert HeadToken(l', v') by {
      SwapTailToken(l, v, t, node, l', v', pc);
    }
    assert AllKnow(l', v') by {
      SwapTailKnows(l, v, t, node, l', v', pc);
    }
    assert Counted(l', v') by {
      CountFrame(l, v, l', v', t, pc);
    }
  }

  /** What the enqueuer has to know of the chain that its node joins. */
  lemma SwapTailFacts(l: List, v: View, t: nat, node: nat)
    requires Inv(l, v) && t < |l.threads| && l.threads[t] == SwapTail(node)
    ensures Distinct(Chain(v)) && NextOf(l, node) == NULL && Chain(v.(queue := v.queue + [node])) == Chain(v) + [node]
    ensures l.tail == NULL <==> Chain(v) == []
  {
    ChainDistinct(l, v);
    assert Knows(l, v, l.threads[t]);
    EmptyTail(l, v);
  }

  /** A null tail means that nothing is queued or claimed. */
  lemma EmptyTail(l: List, v: View)
    requires Inv(l, v)
    ensures l.tail == NULL <==> Chain(v) == []
  {
    ChainDistinct(l, v);
    var c := Chain(v);
    if c != [] {
      assert c[|c| - 1] in c;
    }
  }

  lemma SwapTailOwned(l: List, v: View, t: nat, node: nat, l': List, v': View, pc: Pc)
    requires Owned(l, v) && Moved(l, l', t, pc) && l.threads[t] == SwapTail(node)
    requires l'.inside == l.inside && v'.queue == v.queue + [node] && !Holding(pc)
    ensures Owned(l', v')
  {
    forall u | 0 <= u < |l'.threads| && Holding(l'.threads[u])
      ensures Held(l'.threads[u]) !in v'.queue
    {
      assert u < t || t < u;
    }
  }

  lemma SwapTailLinked(l: List, v: View, t: nat, node: nat, l': List, v': View, pc: Pc)
    requires Linked(l, v) && Moved(l, l', t, pc) && l.threads[t] == SwapTail(node)
    requires l'.tail == node && l'.next == l.next && NextOf(l, node) == NULL && Chain(v') == Chain(v) + [node]
    requires Chain(v) != [] ==> pc == Link(l.tail, node)
    ensures Linked(l', v')
  {
    var c, c' := Chain(v), Chain(v');
    forall k {:trigger NextOf(l', c'[k])} | 0 <= k < |c'| - 1
      ensures NextOf(l', c'[k]) == c'[k + 1] || (NextOf(l', c'[k]) == NULL && Linking(l'.threads, c'[k], c'[k + 1]))
    {
      assert c'[k] == c[k];
      if k == |c| - 1 {
        assert l'.threads[t] == Link(c'[k], c'[k + 1]);
      } else if NextOf(l, c[k]) != c[k + 1] {
        StillLinking(l.threads, t, pc, c[k], c[k + 1]);
      }
    }
  }

  lemma FollowsGrows(c: seq<nat>, node: nat, a: nat, b: nat)
    requires Follows(c, a, b)
    ensures Follows(c + [node], a, b)
  {
    var k :| Adjacent(c, k, a, b);
    assert Adjacent(c + [node], k, a, b);
  }

  lemma SwapTailPending(l: List, v: View, t: nat, node: nat, l': List, v': View, pc: Pc)
    requires PendingLinks(l, v) && Linked(l, v) && Distinct(Chain(v)) && Moved(l, l', t, pc)
    requires l.threads[t] == SwapTail(node)
    requires l'.next == l.next && Chain(v') == Chain(v) + [node]
    requires pc == (if Chain(v) != [] then Link(l.tail, node) else PublishFirst(node))
    ensures PendingLinks(l', v')
  {
    var c, c' := Chain(v), Chain(v');
    forall u | 0 <= u < |l.threads| && l.threads[u].Link?
      ensures Follows(c', l.threads[u].prev, l.threads[u].node)
      ensures c != [] && l.threads[u].prev != l.tail
    {
      FollowsGrows(c, node, l.threads[u].prev, l.threads[u].node);
      var k :| Adjacent(c, k, l.threads[u].prev, l.threads[u].node);
    }
    if c != [] {
      assert Adjacent(c', |c| - 1, l.tail, node);
    }
  }

  lemma SwapTailToken(l: List, v: View, t: nat, node: nat, l': List, v': View, pc: Pc)
    requires HeadToken(l, v) && Moved(l, l', t, pc) && l.threads[t] == SwapTail(node)
    requires l'.head == l.head && v' == v.(queue := v.queue + [node])
    requires pc == (if Chain(v) != [] then Link(l.tail, node) else PublishFirst(node))
    ensures HeadToken(l', v')
  {
    if Publishing(l.threads) {
      StillPublishing(l.threads, t, pc);
    }
    assert l'.threads[t] == pc;
  }

  lemma SwapTailKnows(l: List, v: View, t: nat, node: nat, l': List, v': View, pc: Pc)
    requires AllKnow(l, v) && Moved(l, l', t, pc) && (pc.Link? || pc.PublishFirst?)
    requires l'.next == l.next && v' == v.(queue := v.queue + [node])
    ensures AllKnow(l', v')
  {
    forall u | 0 <= u < |l.threads| && u != t && Learns(l.threads[u])
      ensures Knows(l', v', l.threads[u])
    {
      assert Knows(l, v, l.threads[u]);
    }
    KnowsFrame(l, v, l', v', t, pc);
  }

  /** oldTail->setNext(node): the pending link is made. */
  lemma LinkMove(l: List, v: View, t: nat, prev: nat, node: nat)
    requires Inv(l, v) && t < |l.threads| && l.threads[t] == Link(prev, node)
    ensures Inv(Goto(l.(next := l.next[prev := node]), t, CountUp(node)), v)
  {
    var pc := CountUp(node);
    var l' := Goto(l.(next := l.next[prev := node]), t, pc);
    ChainDistinct(l, v);
    OwnedFrame(l, v, l', v, t, pc);
    ConservedFrame(l, v, l', v, t, pc);
    ClaimedFrame(l, v, l', v, t, pc);
    LinkLinked(l, v, t, prev, node, l', pc);
    forall u | 0 <= u < |l.threads| && u != t && l.threads[u].Link?
      ensures NextOf(l', l.threads[u].prev) == NULL
    {
      assert u < t || t < u;
    }
    PendingFrame(l, v, l', v, t, pc);
    TokenFrame(l, v, l', v, t, pc);
    LinkKnows(l, v, t, prev, node, l', pc);
    CountFrame(l, v, l', v, t, pc);
  }

  lemma LinkLinked(l: List, v: View, t: nat, prev: nat, node: nat, l': List, pc: Pc)
    requires Linked(l, v) && PendingLinks(l, v) && Distinct(Chain(v)) && Moved(l, l', t, pc)
    requires l.threads[t] == Link(prev, node)
    requires l'.next == l.next[prev := node] && l'.tail == l.tail
    ensures Linked(l', v)
  {
    var c := Chain(v);
    assert Follows(c, prev, node);
    var j :| Adjacent(c, j, prev, node);
    forall k {:trigger NextOf(l', c[k])} | 0 <= k < |c| - 1
      ensures NextOf(l', c[k]) == c[k + 1] || (NextOf(l', c[k]) == NULL && Linking(l'.threads, c[k], c[k + 1]))
    {
      if k != j {
        assert c[k] != c[j];
        if NextOf(l, c[k]) != c[k + 1] {
          StillLinking(l.threads, t, pc, c[k], c[k + 1]);
        }
      }
    }
  }

  lemma LinkKnows(l: List, v: View, t: nat, prev: nat, node: nat, l': List, pc: Pc)
    requires Inv(l, v) && Moved(l, l', t, pc) && l.threads[t] == Link(prev, node) && pc == CountUp(node)
    requires l'.next == l.next[prev := node]
    ensures AllKnow(l', v)
  {
    assert Follows(Chain(v), prev, node);
    forall u | 0 <= u < |l.threads| && u != t && Learns(l.threads[u])
      ensures Knows(l', v, l.threads[u])
    {
      assert Knows(l, v, l.threads[u]);
      if l.threads[u].SwapTail? {
        HeldApart(l, v, u);
      }
    }
    KnowsFrame(l, v, l', v, t, pc);
  }

  /** m_head.exchange(node): the first node of an empty list is published. */
  lemma PublishMove(l: List, v: View, t: nat, node: nat)
    requires Inv(l, v) && t < |l.threads| && l.threads[t] == PublishFirst(node)
    ensures Inv(Goto(l.(head := node), t, CountUp(node)), v)
  {
    var pc := CountUp(node);
    var l' := Goto(l.(head := node), t, pc);
    OwnedFrame(l, v, l', v, t, pc);
    ConservedFrame(l, v, l', v, t, pc);
    ClaimedFrame(l, v, l', v, t, pc);
    LinkedFrame(l, v, l', v, t, pc);
    PendingFrame(l, v, l', v, t, pc);
    forall u | 0 <= u < |l'.threads|
      ensures !l'.threads[u].PublishFirst?
    {
      assert u < t || u == t || t < u;
    }
    assert v.queue[0] in v.queue;
    KnowsSame(l, v, l', t, pc);
    CountFrame(l, v, l', v, t, pc);
  }

  /** m_count++ */
  lemma CountUpMove(l: List, v: View, t: nat, node: nat)
    requires Inv(l, v) && t < |l.threads| && l.threads[t] == CountUp(node)
    ensures Inv(Goto(l.(count := (l.count + 1) % WORD), t, Idle), v)
  {
    var l' := Goto(l.(count := (l.count + 1) % WORD), t, Idle);
    OwnedFrame(l, v, l', v, t, Idle);
    ConservedFrame(l, v, l', v, t, Idle);
    ClaimedFrame(l, v, l', v, t, Idle);
    LinkedFrame(l, v, l', v, t, Idle);
    PendingFrame(l, v, l', v, t, Idle);
    TokenFrame(l, v, l', v, t, Idle);
    KnowsSame(l, v, l', t, Idle);
    CountShift(l, v, l', t, Idle, 1);
  }

  // ---------------------------------------------------------------------
  // The head exchange and what follows it
  // ---------------------------------------------------------------------

  /** Linearization point of dequeue: the front node leaves the queue and is claimed. */
  lemma CasHeadMove(l: List, v: View, t: nat, top: nat)
    requires Inv(l, v) && t < |l.threads| && l.threads[t] == CasHead(top) && l.head == top
    ensures v.queue != [] && top == v.queue[0]
    ensures Inv(Goto(l.(head := NULL), t, ReadNext(top)), View(v.queue[1..], Claimed(t, top)))
  {
    var pc := ReadNext(top);
    var l' := Goto(l.(head := NULL), t, pc);
    assert Knows(l, v, l.threads[t]);
    var v' := View(v.queue[1..], Claimed(t, top));
    assert Chain(v') == Chain(v);
    assert Owned(l', v') by {
      CasHeadOwned(l, v, t, top, l', v');
    }
    assert Conserved(l', v') by {
      ConservedFrame(l, v, l', v', t, pc);
    }
    assert ClaimedBy(l', v') by {
      CasHeadClaimed(l, v, t, top, l', v');
    }
    assert Linked(l', v') by {
      LinkedFrame(l, v, l', v', t, pc);
    }
    assert PendingLinks(l', v') by {
      PendingFrame(l, v, l', v', t, pc);
    }
    assert HeadToken(l', v') by {
      CasHeadToken(l, v, t, top, l', v');
    }
    assert AllKnow(l', v') by {
      CasHeadKnows(l, v, t, top, l', v');
    }
    assert Counted(l', v') by {
      CountFrame(l, v, l', v', t, pc);
    }
  }

  lemma CasHeadClaimed(l: List, v: View, t: nat, top: nat, l': List, v': View)
    requires ClaimedBy(l, v) && v.claim.NoClaim? && Moved(l, l', t, ReadNext(top)) && v'.claim == Claimed(t, top)
    ensures ClaimedBy(l', v')
  {
  }

  lemma CasHeadToken(l: List, v: View, t: nat, top: nat, l': List, v': View)
    requires HeadToken(l, v) && Moved(l, l', t, ReadNext(top)) && l.head == top != NULL
    requires l'.head == NULL && v'.claim == Claimed(t, top)
    ensures HeadToken(l', v')
  {
    assert forall u :: 0 <= u < |l'.threads| ==> !l'.threads[u].PublishFirst?;
  }

  lemma CasHeadKnows(l: List, v: View, t: nat, top: nat, l': List, v': View)
    requires AllKnow(l, v) && ClaimedBy(l, v) && v.claim.NoClaim? && Moved(l, l', t, ReadNext(top)) && l'.next == l.next
    ensures AllKnow(l', v')
  {
    forall u | 0 <= u < |l.threads| && u != t && Learns(l.threads[u])
      ensures Knows(l', v', l.threads[u])
    {
      assert Knows(l, v, l.threads[u]);
    }
    KnowsFrame(l, v, l', v', t, ReadNext(top));
  }

  lemma CasHeadOwned(l: List, v: View, t: nat, top: nat, l': List, v': View)
    requires Owned(l, v) && Moved(l, l', t, ReadNext(top)) && l.threads[t] == CasHead(top)
    requires l'.inside == l.inside && v.queue != [] && top == v.queue[0] && v'.queue == v.queue[1..]
    ensures Owned(l', v')
  {
    assert v.queue[0] in v.queue;
    assert forall n :: n in v'.queue ==> n in v.queue;
    forall u | 0 <= u < |l'.threads| && Holding(l'.threads[u])
      ensures Held(l'.threads[u]) != NULL && Held(l'.threads[u]) in l'.inside && Held(l'.threads[u]) !in v'.queue
    {
    }
  }

  /** The claim is given back by publishing the next head. */
  lemma ReleaseMove(l: List, v: View, t: nat, top: nat, next: nat)
    requires Inv(l, v) && t < |l.threads| && next != NULL
    requires l.threads[t] == StoreHead(top, next) || l.threads[t] == RestoreHead(top, next)
    ensures Inv(Goto(l.(head := next), t, ClearNext(top)), v.(claim := NoClaim))
  {
    var pc := ClearNext(top);
    var l' := Goto(l.(head := next), t, pc);
    var v' := v.(claim := NoClaim);
    assert Knows(l, v, l.threads[t]);
    assert v.claim == Claimed(t, top);
    OwnedFrame(l, v, l', v', t, pc);
    ConservedFrame(l, v, l', v', t, pc);
    assert ClaimedBy(l', v');
    ReleaseLinked(l, v, t, l', v', pc);
    ReleasePending(l, v, t, l', v', pc);
    assert HeadToken(l', v');
    EmptyKnows(l, v, l', v', t, pc);
    CountFrame(l, v, l', v', t, pc);
  }

  lemma EmptyKnows(l: List, v: View, l': List, v': View, t: nat, pc: Pc)
    requires AllKnow(l, v) && Moved(l, l', t, pc) && pc.ClearNext? && l'.next == l.next && v'.queue == v.queue
    ensures AllKnow(l', v')
  {
    forall u | 0 <= u < |l.threads| && u != t && Learns(l.threads[u])
      ensures Knows(l', v', l.threads[u])
    {
      assert Knows(l, v, l.threads[u]);
    }
    KnowsFrame(l, v, l', v', t, pc);
  }

  lemma ReleaseLinked(l: List, v: View, t: nat, l': List, v': View, pc: Pc)
    requires Linked(l, v) && Moved(l, l', t, pc) && !l.threads[t].Link?
    requires l'.tail == l.tail && l'.next == l.next && v.claim.Claimed? && v' == v.(claim := NoClaim) && v.queue != []
    ensures Linked(l', v')
  {
    var c, c' := Chain(v), Chain(v');
    forall k {:trigger NextOf(l', c'[k])} | 0 <= k < |c'| - 1
      ensures NextOf(l', c'[k]) == c'[k + 1] || (NextOf(l', c'[k]) == NULL && Linking(l'.threads, c'[k], c'[k + 1]))
    {
      assert c'[k] == c[k + 1] && c'[k + 1] == c[k + 2];
      if NextOf(l, c[k + 1]) != c[k + 2] {
        StillLinking(l.threads, t, pc, c'[k], c'[k + 1]);
      }
    }
  }

  lemma ReleasePending(l: List, v: View, t: nat, l': List, v': View, pc: Pc)
    requires PendingLinks(l, v) && Moved(l, l', t, pc) && !pc.Link?
    requires l'.next == l.next && v.claim.Claimed? && v' == v.(claim := NoClaim) && NextOf(l, v.claim.node) != NULL
    ensures PendingLinks(l', v')
  {
    var c, c' := Chain(v), Chain(v');
    forall u | 0 <= u < |l.threads| && u != t && l.threads[u].Link?
      ensures Follows(c', l.threads[u].prev, l.threads[u].node)
    {
      var k :| Adjacent(c, k, l.threads[u].prev, l.threads[u].node);
      assert k > 0;
      assert Adjacent(c', k - 1, l.threads[u].prev, l.threads[u].node);
    }
    PendingFrame(l, v, l', v', t, pc);
  }

  /** The claim is given back by emptying the list: the tail exchange of dequeue succeeds. */
  lemma EmptyMove(l: List, v: View, t: nat, top: nat)
    requires Inv(l, v) && t < |l.threads| && l.threads[t] == CasTail(top) && l.tail == top
    ensures Inv(Goto(l.(tail := NULL), t, ClearNext(top)), v.(claim := NoClaim))
  {
    var pc := ClearNext(top);
    var l' := Goto(l.(tail := NULL), t, pc);
    var v' := v.(claim := NoClaim);
    var c := Chain(v);
    ChainDistinct(l, v);
    assert v.claim == Claimed(t, top) && c[0] == top && c[|c| - 1] == top;
    assert v.queue == [];
    OwnedFrame(l, v, l', v', t, pc);
    ConservedFrame(l, v, l', v', t, pc);
    assert ClaimedBy(l', v');
    assert Linked(l', v');
    forall u | 0 <= u < |l.threads|
      ensures !l.threads[u].Link?
    {
      assert l.threads[u].Link? ==> Follows(c, l.threads[u].prev, l.threads[u].node);
    }
    PendingFrame(l, v, l', v', t, pc);
    assert HeadToken(l', v');
    forall u | 0 <= u < |l.threads| && u != t && Learns(l.threads[u])
      ensures Knows(l', v', l.threads[u])
    {
      assert Knows(l, v, l.threads[u]);
    }
    KnowsFrame(l, v, l', v', t, pc);
    CountFrame(l, v, l', v', t, pc);
  }

  /** m_count--, and the node goes back to the caller. */
  lemma CountDownMove(l: List, v: View, t: nat, top: nat)
    requires Inv(l, v) && t < |l.threads| && l.threads[t] == CountDown(top)
    ensures Inv(Goto(l.(count := (l.count - 1) % WORD, inside := l.inside - {top}), t, Idle), v)
  {
    var l' := Goto(l.(count := (l.count - 1) % WORD, inside := l.inside - {top}), t, Idle);
    CountDownOwned(l, v, t, top, l');
    ConservedFrame(l, v, l', v, t, Idle);
    ClaimedFrame(l, v, l', v, t, Idle);
    LinkedFrame(l, v, l', v, t, Idle);
    PendingFrame(l, v, l', v, t, Idle);
    TokenFrame(l, v, l', v, t, Idle);
    KnowsSame(l, v, l', t, Idle);
    CountShift(l, v, l', t, Idle, -1);
  }

  lemma CountDownOwned(l: List, v: View, t: nat, top: nat, l': List)
    requires Owned(l, v) && Moved(l, l', t, Idle) && l.threads[t] == CountDown(top) && l'.inside == l.inside - {top}
    ensures Owned(l', v)
  {
    forall u | 0 <= u < |l'.threads| && Holding(l'.threads[u])
      ensures Held(l'.threads[u]) != top
    {
      assert u < t || t < u;
    }
  }

  lemma CountShift(l: List, v: View, l': List, t: nat, pc: Pc, delta: int)
    requires Counted(l, v) && Moved(l, l', t, pc) && l'.count == (l.count + delta) % WORD
    requires Uncounted(pc) == Uncounted(l.threads[t]) + delta
    ensures Counted(l', v)
  {
    TotalUpdate(l.threads, Uncounted, t, pc);
    var x := |v.queue| + Total(l.threads, Uncounted);
    assert (x % WORD + delta) % WORD == (x + delta) % WORD;
  }

  // ---------------------------------------------------------------------
  // All moves
  // ---------------------------------------------------------------------

  lemma InitialInv(l: List)
    requires Initial(l)
    ensures Inv(l, View([], NoClaim))
  {
    TotalZero(l.threads, Uncounted);
  }

  lemma EnterPreserves(l: List, v: View, t: nat, weak: bool)
    requires Inv(l, v) && t < |l.threads| && (l.threads[t].ResetNext? || l.threads[t].SwapTail?)
    ensures Inv(Next(l, Step(t, weak)), Track(l, v, Step(t, weak)))
  {
    match l.threads[t]
    case ResetNext(node) => ClearLink(l, v, t, SwapTail(node));
    case SwapTail(node) => SwapTailMove(l, v, t, node);
  }

  lemma AttachPreserves(l: List, v: View, t: nat, weak: bool)
    requires Inv(l, v) && t < |l.threads| && (l.threads[t].Link? || l.threads[t].PublishFirst?)
    ensures Inv(Next(l, Step(t, weak)), Track(l, v, Step(t, weak)))
  {
    match l.threads[t]
    case Link(prev, node) => LinkMove(l, v, t, prev, node);
    case PublishFirst(node) => PublishMove(l, v, t, node);
  }

  lemma DequeuePreserves(l: List, v: View, t: nat, weak: bool)
    requires Inv(l, v) && Enabled(l, Step(t, weak))
    requires var pc := l.threads[t]; !(pc.ResetNext? || pc.SwapTail? || pc.Link? || pc.PublishFirst? || pc.CountUp?)
    requires !Claiming(l.threads[t])
    ensures Inv(Next(l, Step(t, weak)), Track(l, v, Step(t, weak)))
  {
    match l.threads[t]
    case LoadHead => LookPreserves(l, v, t, weak);
    case CheckTail => LookPreserves(l, v, t, weak);
    case SpinHead => LookPreserves(l, v, t, weak);
    case SpinTail => LookPreserves(l, v, t, weak);
    case CasHead(top) => CasHeadPreserves(l, v, t, top, weak);
    case ClearNext(top) => ClearPreserves(l, v, t, weak);
    case CountDown(top) => ReturnPreserves(l, v, t, weak);
  }

  lemma ClearPreserves(l: List, v: View, t: nat, weak: bool)
    requires Inv(l, v) && t < |l.threads| && l.threads[t].ClearNext?
    ensures Inv(Next(l, Step(t, weak)), Track(l, v, Step(t, weak)))
  {
    ClearLink(l, v, t, CountDown(l.threads[t].top));
  }

  /** The accesses of m_count. */
  lemma CountingStep(l: List, v: View, t: nat, weak: bool)
    requires t < |l.threads| && (l.threads[t].CountUp? || l.threads[t].CountDown?)
    ensures Track(l, v, Step(t, weak)) == v
    ensures Next(l, Step(t, weak)) ==
              if l.threads[t].CountUp? then Goto(l.(count := (l.count + 1) % WORD), t, Idle)
              else Goto(l.(count := (l.count - 1) % WORD, inside := l.inside - {l.threads[t].top}), t, Idle)
  {
  }

  lemma ReturnPreserves(l: List, v: View, t: nat, weak: bool)
    requires Inv(l, v) && t < |l.threads| && (l.threads[t].CountUp? || l.threads[t].CountDown?)
    ensures Inv(Next(l, Step(t, weak)), Track(l, v, Step(t, weak)))
  {
    CountingStep(l, v, t, weak);
    if l.threads[t].CountUp? {
      CountUpMove(l, v, t, l.threads[t].node);
    } else {
      CountDownMove(l, v, t, l.threads[t].top);
    }
  }

  lemma LookPreserves(l: List, v: View, t: nat, weak: bool)
    requires Inv(l, v) && t < |l.threads|
    requires l.threads[t].LoadHead? || l.threads[t].CheckTail? || l.threads[t].SpinHead? || l.threads[t].SpinTail?
    ensures Inv(Next(l, Step(t, weak)), Track(l, v, Step(t, weak)))
  {
    var looksAtHead := l.threads[t].LoadHead? || l.threads[t].SpinHead?;
    if looksAtHead {
      QuietMove(l, v, t, if l.head != NULL then CasHead(l.head) else if l.threads[t].LoadHead? then CheckTail
          else SpinTail);
    } else {
      QuietMove(l, v, t, if l.tail == NULL then Idle else SpinHead);
    }
  }

  lemma CasHeadPreserves(l: List, v: View, t: nat, top: nat, weak: bool)
    requires Inv(l, v) && t < |l.threads| && l.threads[t] == CasHead(top)
    ensures Inv(Next(l, Step(t, weak)), Track(l, v, Step(t, weak)))
  {
    if l.head == top && !weak {
      CasHeadMove(l, v, t, top);
    } else {
      QuietMove(l, v, t, if l.head == NULL then CheckTail else CasHead(l.head));
    }
  }

  /** The claimant finds that it has nothing to put at the head. */
  lemma StoreNullPreserves(l: List, v: View, t: nat, weak: bool)
    requires Inv(l, v) && t < |l.threads| && l.threads[t].StoreHead? && l.threads[t].next == NULL
    ensures Inv(Next(l, Step(t, weak)), Track(l, v, Step(t, weak)))
  {
    assert l.(head := NULL) == l;
    ClaimMove(l, v, t, CasTail(l.threads[t].top));
  }

  /** The two stores that give the head back. */
  lemma GiveHeadStep(l: List, v: View, t: nat, weak: bool)
    requires t < |l.threads| && (l.threads[t].StoreHead? || l.threads[t].RestoreHead?)
    requires l.threads[t].StoreHead? ==> l.threads[t].next != NULL
    ensures Next(l, Step(t, weak)) == Goto(l.(head := l.threads[t].next), t, ClearNext(l.threads[t].top))
    ensures Track(l, v, Step(t, weak)) == v.(claim := NoClaim)
  {
  }

  lemma GiveHeadPreserves(l: List, v: View, t: nat, weak: bool)
    requires Inv(l, v) && t < |l.threads| && (l.threads[t].StoreHead? || l.threads[t].RestoreHead?)
    requires l.threads[t].StoreHead? ==> l.threads[t].next != NULL
    ensures Inv(Next(l, Step(t, weak)), Track(l, v, Step(t, weak)))
  {
    assert Knows(l, v, l.threads[t]);
    assert v.queue[0] in v.queue;
    GiveHeadStep(l, v, t, weak);
    ReleaseMove(l, v, t, l.threads[t].top, l.threads[t].next);
  }

  lemma CasTailPreserves(l: List, v: View, t: nat, weak: bool)
    requires Inv(l, v) && t < |l.threads| && l.threads[t].CasTail?
    ensures Inv(Next(l, Step(t, weak)), Track(l, v, Step(t, weak)))
  {
    ClaimedLinks(l, v, t);
    var top := l.threads[t].top;
    if l.tail == top {
      EmptyMove(l, v, t, top);
    } else {
      ClaimMove(l, v, t, AwaitNext(top));
    }
  }

  /** The claimant reads the link of its node, or goes round its loop. */
  lemma ReadPreserves(l: List, v: View, t: nat, weak: bool)
    requires Inv(l, v) && t < |l.threads|
    requires l.threads[t].ReadNext? || l.threads[t].AwaitNext? || l.threads[t].RereadNext?
    ensures Inv(Next(l, Step(t, weak)), Track(l, v, Step(t, weak)))
  {
    ClaimedLinks(l, v, t);
    var top := l.threads[t].top;
    ReadStep(l, v, t, weak);
    if l.threads[t].ReadNext? {
      ClaimMove(l, v, t, StoreHead(top, NextOf(l, top)));
    } else if l.threads[t].RereadNext? {
      assert Knows(l, v, l.threads[t]);
      ClaimMove(l, v, t, RestoreHead(top, NextOf(l, top)));
    } else if NextOf(l, top) != NULL {
      ClaimMove(l, v, t, RereadNext(top));
    }
  }

  lemma ReadStep(l: List, v: View, t: nat, weak: bool)
    requires t < |l.threads| && (l.threads[t].ReadNext? || l.threads[t].AwaitNext? || l.threads[t].RereadNext?)
    ensures Track(l, v, Step(t, weak)) == v
    ensures Next(l, Step(t, weak)) ==
              var top := l.threads[t].top;
              if l.threads[t].ReadNext? then Goto(l, t, StoreHead(top, NextOf(l, top)))
              else if l.threads[t].RereadNext? then Goto(l, t, RestoreHead(top, NextOf(l, top)))
              else if NextOf(l, top) == NULL then l
              else Goto(l, t, RereadNext(top))
  {
  }

  lemma ClaimingPreserves(l: List, v: View, t: nat, weak: bool)
    requires Inv(l, v) && Enabled(l, Step(t, weak)) && Claiming(l.threads[t])
    ensures Inv(Next(l, Step(t, weak)), Track(l, v, Step(t, weak)))
  {
    var pc := l.threads[t];
    if pc.ReadNext? || pc.AwaitNext? || pc.RereadNext? {
      ReadPreserves(l, v, t, weak);
    } else if pc.CasTail? {
      CasTailPreserves(l, v, t, weak);
    } else if pc.StoreHead? && pc.next == NULL {
      StoreNullPreserves(l, v, t, weak);
    } else {
      GiveHeadPreserves(l, v, t, weak);
    }
  }

  /** The claimed node's link, once made, leads to the front of the queue. */
  lemma ClaimedLinks(l: List, v: View, t: nat)
    requires Inv(l, v) && t < |l.threads| && Claiming(l.threads[t])
    ensures NextOf(l, Held(l.threads[t])) != NULL ==> v.queue != [] && NextOf(l, Held(l.threads[t])) == v.queue[0]
    ensures v.queue == [] ==> l.tail == Held(l.threads[t])
  {
    var c := Chain(v);
    assert c[0] == Held(l.threads[t]);
    assert v.queue != [] ==> c[1] == v.queue[0];
  }

  /** The invariant is kept by every move of every thread. */
  lemma Preserved(l: List, v: View, m: Move)
    requires Inv(l, v)
    ensures Inv(Next(l, m), Track(l, v, m))
  {
    if Enabled(l, m) {
      match m
      case Begin(t, Enqueue(node)) => BeginEnqueue(l, v, t, node);
      case Begin(t, Dequeue) => QuietMove(l, v, t, LoadHead);
      case Step(t, weak) =>
        var pc := l.threads[t];
        if pc.ResetNext? || pc.SwapTail? {
          EnterPreserves(l, v, t, weak);
        } else if pc.Link? || pc.PublishFirst? {
          AttachPreserves(l, v, t, weak);
        } else if pc.CountUp? {
          ReturnPreserves(l, v, t, weak);
        } else if Claiming(pc) {
          ClaimingPreserves(l, v, t, weak);
        } else {
          DequeuePreserves(l, v, t, weak);
        }
    }
  }
}
