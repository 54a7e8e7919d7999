/** What a dequeue or an enqueue does when its thread moves alone, whatever the other threads are in the middle of. */
module FifoListAlone {
  import opened Tally
  import opened FifoList
  import opened FifoListProof
  import opened FifoListTheorems
  import opened Undisturbed

  /** The list, its view, and what the thread has been answered since it moves alone. */
  datatype Lone = Lone(list: List, view: View, replies: seq<Entry>)

  function Forward(x: Lone, t: nat): Lone {
    Lone(Next(x.list, Step(t, false)), Track(x.list, x.view, Step(t, false)),
        x.replies + ReplyOf(x.list, Step(t, false)))
  }

  function Mover(t: nat): Lone -> Lone {
    (x: Lone) => Forward(x, t)
  }

  /** After `n` accesses of thread `t`, with nobody else moving. */
  function Alone(x: Lone, t: nat, n: nat): Lone {
    After(Mover(t), x, n)
  }

  lemma AloneMore(x: Lone, t: nat, a: nat, b: nat)
    ensures Alone(x, t, a + b) == Alone(Alone(x, t, a), t, b)
  {
    AfterMore(Mover(t), x, a, b);
  }

  lemma OneMore(x: Lone, t: nat)
    ensures Alone(x, t, 1) == Forward(x, t) && Alone(x, t, 2) == Forward(Forward(x, t), t)
  {
    AfterFew(Mover(t), x);
  }

  // ---------------------------------------------------------------------
  // Enqueue
  // ---------------------------------------------------------------------

  /** The list after thread `t` has enqueued `node` behind the tail it finds. */
  function Enqueued(l: List, t: nat, node: nat): List
    requires t < |l.threads|
  {
    var reset := l.next[node := NULL];
    Goto(l.(tail := node, count := (l.count + 1) % WORD,
            head := if l.tail == NULL then node else l.head,
            next := if l.tail == NULL then reset else reset[l.tail := node]),
         t, Idle)
  }

  lemma EnqueueEnters(x: Lone, t: nat, node: nat)
    requires t < |x.list.threads| && x.list.threads[t] == ResetNext(node)
    ensures var l := x.list;
            Alone(x, t, 2) ==
              x.(list := Goto(l.(tail := node, next := l.next[node := NULL]), t,
                              if l.tail != NULL then Link(l.tail, node) else PublishFirst(node)),
                 view := x.view.(queue := x.view.queue + [node]))
  {
    var x1 := x.(list := Goto(x.list.(next := x.list.next[node := NULL]), t, SwapTail(node)));
    OneMore(x, t);
    assert Forward(x, t) == x1;
  }

  lemma EnqueueAttaches(x: Lone, t: nat, node: nat)
    requires var l := x.list;
             t < |l.threads|
                 && (l.threads[t] == PublishFirst(node) || (l.threads[t].Link? && l.threads[t].node == node))
    ensures var l := x.list;
            Alone(x, t, 2) ==
              x.(list := Goto(l.(count := (l.count + 1) % WORD,
                                 head := if l.threads[t].Link? then l.head else node,
                                 next := if l.threads[t].Link? then l.next[l.threads[t].prev := node] else l.next),
                              t, Idle),
                 replies := x.replies + [Entry(t, Put(node))])
  {
    OneMore(x, t);
    assert Forward(x, t).list.threads[t] == CountUp(node) && Forward(x, t).replies == x.replies;
  }

  /** An enqueue that moves alone appends its node and returns after four accesses. */
  lemma EnqueueAlone(x: Lone, t: nat, node: nat)
    requires t < |x.list.threads| && x.list.threads[t] == ResetNext(node)
    ensures Alone(x, t, 4) ==
              Lone(Enqueued(x.list, t, node), x.view.(queue := x.view.queue + [node]),
                  x.replies + [Entry(t, Put(node))])
  {
    EnqueueEnters(x, t, node);
    EnqueueAttaches(Alone(x, t, 2), t, node);
    AloneMore(x, t, 2, 2);
    assert Alone(Alone(x, t, 2), t, 2).list == Enqueued(x.list, t, node);
  }

  // ---------------------------------------------------------------------
  // Dequeue
  // ---------------------------------------------------------------------

  /** A dequeue that has not taken effect. */
  predicate Before(pc: Pc) {
    pc.LoadHead? || pc.CheckTail? || pc.SpinHead? || pc.SpinTail? || pc.CasHead?
  }

  /** There is a head to take, and a link behind it or nothing to link. */
  predicate Takeable(l: List) {
    l.head != NULL && (NextOf(l, l.head) != NULL || l.tail == l.head)
  }

  /** The list after thread `t` has taken the head. */
  function Taken(l: List, t: nat): List
    requires t < |l.threads|
  {
    var top := l.head;
    Goto(l.(head := NextOf(l, top),
            tail := if NextOf(l, top) == NULL then NULL else l.tail,
            next := l.next[top := NULL], count := (l.count - 1) % WORD, inside := l.inside - {top}),
         t, Idle)
  }

  /** The accesses up to the one that exchanges the head that is there. */
  lemma FindsHead(x: Lone, t: nat) returns (n: nat)
    requires var l := x.list; t < |l.threads| && Before(l.threads[t]) && l.head != NULL && l.tail != NULL
    ensures n <= 2 && Alone(x, t, n) == x.(list := Goto(x.list, t, CasHead(x.list.head)))
  {
    var l := x.list;
    OneMore(x, t);
    if l.threads[t] == CasHead(l.head) {
      n := 0;
      assert Goto(l, t, CasHead(l.head)) == l;
    } else if l.threads[t].CheckTail? || l.threads[t].SpinTail? {
      n := 2;
      assert Forward(x, t) == x.(list := Goto(l, t, SpinHead));
      assert Next(Goto(l, t, SpinHead), Step(t, false)) == Goto(l, t, CasHead(l.head));
    } else {
      n := 1;
    }
  }

  /** The head goes out, and its link or nothing comes in. */
  lemma TakesHead(x: Lone, t: nat)
    requires t < |x.list.threads| && x.list.threads[t] == CasHead(x.list.head) && x.list.head != NULL
    requires x.view.queue != []
    requires x.view.claim.NoClaim?
    ensures var l := x.list;
            var last := NextOf(l, l.head) == NULL;
            Alone(x, t, 3) ==
              x.(list := Goto(l.(head := NextOf(l, l.head)), t, if last then CasTail(l.head) else ClearNext(l.head)),
                 view := View(x.view.queue[1..], if last then Claimed(t, l.head) else NoClaim))
  {
    var l, top := x.list, x.list.head;
    var v1 := View(x.view.queue[1..], Claimed(t, top));
    var x1 := x.(list := Goto(l.(head := NULL), t, ReadNext(top)), view := v1);
    var x2 := x.(list := Goto(l.(head := NULL), t, StoreHead(top, NextOf(l, top))), view := v1);
    assert Forward(x, t) == x1;
    assert Forward(x1, t) == x2;
    OneMore(x, t);
    AloneMore(x, t, 2, 1);
    StoresHead(x2, t, top);
  }

  lemma StoresHead(x: Lone, t: nat, top: nat)
    requires t < |x.list.threads| && x.list.threads[t].StoreHead? && x.list.threads[t].top == top
    ensures var l, next := x.list, x.list.threads[t].next;
            Alone(x, t, 1) ==
              x.(list := Goto(l.(head := next), t, if next == NULL then CasTail(top) else ClearNext(top)),
                 view := if next == NULL then x.view else x.view.(claim := NoClaim))
  {
    OneMore(x, t);
  }

  lemma EmptiesTail(x: Lone, t: nat, top: nat)
    requires t < |x.list.threads| && x.list.threads[t] == CasTail(top) && x.list.tail == top
    ensures Alone(x, t, 1) ==
              x.(list := Goto(x.list.(tail := NULL), t, ClearNext(top)), view := x.view.(claim := NoClaim))
  {
    OneMore(x, t);
  }

  lemma LetsGo(x: Lone, t: nat, top: nat)
    requires t < |x.list.threads| && x.list.threads[t] == ClearNext(top)
    ensures var l := x.list;
            Alone(x, t, 2) ==
              x.(list := Goto(l.(next := l.next[top := NULL], count := (l.count - 1) % WORD,
                                 inside := l.inside - {top}),
                              t, Idle),
                 replies := x.replies + [Entry(t, Take(top))])
  {
    var x1 := x.(list := Goto(x.list.(next := x.list.next[top := NULL]), t, CountDown(top)));
    OneMore(x, t);
    assert Forward(x, t) == x1;
  }

  /** What a dequeue that takes the front of the queue leaves. */
  function AfterTake(x: Lone, t: nat): Lone
    requires t < |x.list.threads| && x.view.queue != []
  {
    Lone(Taken(x.list, t), x.view.(queue := x.view.queue[1..]), x.replies + [Entry(t, Take(x.view.queue[0]))])
  }

  /** From the exchange on: the front of the queue is taken, and returned. */
  lemma TakesAlone(x: Lone, t: nat) returns (n: nat)
    requires t < |x.list.threads| && x.list.threads[t] == CasHead(x.list.head) && Takeable(x.list)
    requires x.view.queue != [] && x.view.queue[0] == x.list.head && x.view.claim.NoClaim?
    ensures n <= 6 && Alone(x, t, n) == AfterTake(x, t)
  {
    var l, top := x.list, x.list.head;
    TakesHead(x, t);
    var x1 := Alone(x, t, 3);
    n := 3;
    if NextOf(l, top) == NULL {
      EmptiesTail(x1, t, top);
      AloneMore(x, t, 3, 1);
      n := 4;
    }
    var x2 := Alone(x, t, n);
    LetsGo(x2, t, top);
    AloneMore(x, t, n, 2);
    assert Alone(x2, t, 2).list == Taken(l, t);
    n := n + 2;
  }

  lemma HeadIsFront(l: List, v: View)
    requires Inv(l, v) && l.head != NULL
    ensures v.queue != [] && v.queue[0] == l.head && v.claim.NoClaim? && l.tail != NULL
  {
    EmptyTail(l, v);
  }

  /** Alone, wherever it is before its exchange, a dequeue whose head can be taken returns the front of the queue. */
  lemma DequeueTakes(x: Lone, t: nat) returns (n: nat)
    requires Inv(x.list, x.view) && t < |x.list.threads| && Before(x.list.threads[t]) && Takeable(x.list)
    ensures n <= 8 && x.view.queue != [] && Alone(x, t, n) == AfterTake(x, t)
  {
    HeadIsFront(x.list, x.view);
    n := FindsHead(x, t);
    var x1 := Alone(x, t, n);
    var rest := TakesAlone(x1, t);
    AloneMore(x, t, n, rest);
    assert Taken(x1.list, t) == Taken(x.list, t);
    n := n + rest;
  }

  /** What a dequeue that finds nothing leaves. */
  function AfterMiss(x: Lone, t: nat): Lone
    requires t < |x.list.threads|
  {
    x.(list := Goto(x.list, t, Idle), replies := x.replies + [Entry(t, Miss)])
  }

  lemma MissesAlone(x: Lone, t: nat) returns (n: nat)
    requires var l := x.list; t < |l.threads| && Before(l.threads[t]) && l.head == NULL == l.tail
    requires x.list.threads[t].CasHead? ==> x.list.threads[t].top != NULL
    ensures n <= 2 && Alone(x, t, n) == AfterMiss(x, t)
  {
    OneMore(x, t);
    if x.list.threads[t].CheckTail? || x.list.threads[t].SpinTail? {
      n := 1;
    } else {
      n := 2;
      var x1 := Forward(x, t);
      assert x1 == x.(list := Goto(x.list, t, x1.list.threads[t]));
      assert Forward(x1, t) == AfterMiss(x1, t);
    }
  }

  /** Alone on an empty list it answers that it has found nothing. */
  lemma DequeueMisses(x: Lone, t: nat) returns (n: nat)
    requires Inv(x.list, x.view) && t < |x.list.threads| && Before(x.list.threads[t]) && x.list.tail == NULL
    ensures n <= 2 && x.view.queue == [] && Alone(x, t, n) == AfterMiss(x, t)
  {
    EmptyTail(x.list, x.view);
    assert Knows(x.list, x.view, x.list.threads[t]);
    n := MissesAlone(x, t);
  }

  // ---------------------------------------------------------------------
  // When a dequeue cannot return alone
  // ---------------------------------------------------------------------

  /** It goes round the loop that waits for a head. */
  predicate Spins(l: List, t: nat) {
    t < |l.threads| && l.head == NULL && l.tail != NULL && Before(l.threads[t])
    && (l.threads[t].CasHead? ==> l.threads[t].top != NULL)
  }

  /** It goes round the loop that waits for the link of the node it has claimed. */
  predicate WaitsForLink(l: List, t: nat) {
    t < |l.threads| && l.threads[t].AwaitNext? && NextOf(l, l.threads[t].top) == NULL
  }

  lemma {:induction false} SpinsForever(x: Lone, t: nat, n: nat)
    requires Spins(x.list, t)
    ensures Spins(Alone(x, t, n).list, t)
    decreases n
  {
    if n > 0 {
      SpinsForever(Forward(x, t), t, n - 1);
    }
  }

  lemma {:induction false} WaitsForever(x: Lone, t: nat, n: nat)
    requires WaitsForLink(x.list, t)
    ensures Alone(x, t, n) == x
    decreases n
  {
    if n > 0 {
      assert Forward(x, t) == x;
      WaitsForever(x, t, n - 1);
    }
  }

  /**
   A head whose link has not been written, though it is not the last node, leaves
   the dequeue waiting for the link.
   */
  lemma ComesToWait(x: Lone, t: nat) returns (n: nat)
    requires Inv(x.list, x.view) && t < |x.list.threads| && Before(x.list.threads[t])
    requires x.list.head != NULL && !Takeable(x.list)
    ensures n <= 6 && WaitsForLink(Alone(x, t, n).list, t)
  {
    HeadIsFront(x.list, x.view);
    n := FindsHead(x, t);
    var x1 := Alone(x, t, n);
    TakesHead(x1, t);
    AloneMore(x, t, n, 3);
    var x2 := Alone(x1, t, 3);
    OneMore(x2, t);
    AloneMore(x, t, n + 3, 1);
    n := n + 4;
  }

  /** A dequeue returns alone if and only if the list is empty or its head can be taken. */
  predicate Clear(l: List) {
    l.tail == NULL || Takeable(l)
  }

  ghost predicate ReturnsAlone(x: Lone, t: nat) {
    exists n: nat :: Returned(Alone(x, t, n).list, t)
  }

  predicate Returned(l: List, t: nat) {
    t < |l.threads| && l.threads[t].Idle?
  }

  lemma ClearReturns(x: Lone, t: nat)
    requires Inv(x.list, x.view) && t < |x.list.threads| && Before(x.list.threads[t]) && Clear(x.list)
    ensures ReturnsAlone(x, t)
  {
    var n: nat;
    if x.list.tail == NULL {
      n := DequeueMisses(x, t);
    } else {
      n := DequeueTakes(x, t);
    }
    assert Returned(Alone(x, t, n).list, t);
  }

  lemma LinkBlockedStays(x: Lone, t: nat, n: nat)
    requires Inv(x.list, x.view) && t < |x.list.threads| && Before(x.list.threads[t])
    requires x.list.head != NULL && !Takeable(x.list)
    ensures !Returned(Alone(x, t, n).list, t)
  {
    var k := ComesToWait(x, t);
    if n >= k {
      WaitsThen(x, t, k, n);
    } else {
      StaysBefore(x, t, n, k);
    }
  }

  lemma WaitsThen(x: Lone, t: nat, k: nat, n: nat)
    requires k <= n && WaitsForLink(Alone(x, t, k).list, t)
    ensures !Returned(Alone(x, t, n).list, t)
  {
    AloneMore(x, t, k, n - k);
    WaitsForever(Alone(x, t, k), t, n - k);
  }

  lemma BlockedStays(x: Lone, t: nat, n: nat)
    requires Inv(x.list, x.view) && t < |x.list.threads| && Before(x.list.threads[t]) && !Clear(x.list)
    ensures !Returned(Alone(x, t, n).list, t)
  {
    if x.list.head == NULL {
      assert Knows(x.list, x.view, x.list.threads[t]);
      SpinsForever(x, t, n);
    } else {
      LinkBlockedStays(x, t, n);
    }
  }

  /** A thread that has returned stays so. */
  lemma {:induction false} IdleStays(x: Lone, t: nat, n: nat)
    requires Returned(x.list, t)
    ensures Alone(x, t, n) == x
    decreases n
  {
    if n > 0 {
      assert Forward(x, t) == x by {
        assert x.replies + [] == x.replies;
      }
      IdleStays(x, t, n - 1);
    }
  }

  lemma StaysBefore(x: Lone, t: nat, n: nat, k: nat)
    requires n < k && !Returned(Alone(x, t, k).list, t)
    ensures !Returned(Alone(x, t, n).list, t)
  {
    if Returned(Alone(x, t, n).list, t) {
      AloneMore(x, t, n, k - n);
      IdleStays(Alone(x, t, n), t, k - n);
    }
  }

  lemma DequeueReturnsExactly(x: Lone, t: nat)
    requires Inv(x.list, x.view) && t < |x.list.threads| && Before(x.list.threads[t])
    ensures ReturnsAlone(x, t) <==> Clear(x.list)
  {
    if Clear(x.list) {
      ClearReturns(x, t);
    } else {
      forall n: nat
        ensures !Returned(Alone(x, t, n).list, t)
      {
        BlockedStays(x, t, n);
      }
    }
  }

  /** With no claim and no enqueue past its tail exchange and short of its link, every dequeue can return alone. */
  lemma NobodyInTheWay(l: List, v: View)
    requires Inv(l, v) && v.claim.NoClaim?
    requires forall u :: 0 <= u < |l.threads| ==> !l.threads[u].Link? && !l.threads[u].PublishFirst?
    ensures Clear(l)
  {
    EmptyTail(l, v);
    assert !Publishing(l.threads);
    var c := Chain(v);
    if l.tail != NULL && |c| > 1 {
      assert !Linking(l.threads, c[0], c[1]);
      ChainDistinct(l, v);
      assert NextOf(l, c[0]) == c[1] && c[1] in c;
    }
  }
}
