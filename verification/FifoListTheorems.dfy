/** What the list promises its users, over every run of every number of threads. */
module FifoListTheorems {
  import opened Tally
  import opened FifoList
  import opened FifoListProof

  // ---------------------------------------------------------------------
  // Linearizability
  // ---------------------------------------------------------------------

  datatype Op = Put(node: nat) | Take(node: nat) | Miss

  datatype Entry = Entry(thread: nat, op: Op)

  /** A run so far: `effects` in the order the operations took effect, `replies` in the order they returned. */
  datatype History = History(list: List, view: View, effects: seq<Entry>, replies: seq<Entry>)

  /** The operation that takes effect in this access, if any. */
  function EffectOf(l: List, m: Move): seq<Entry> {
    if !Enabled(l, m) || m.Begin? then [] else
    match l.threads[m.thread]
    case SwapTail(node) => [Entry(m.thread, Put(node))]
    case CasHead(top) => if l.head == top && !m.weak then [Entry(m.thread, Take(top))] else []
    case CheckTail => if l.tail == NULL then [Entry(m.thread, Miss)] else []
    case SpinTail => if l.tail == NULL then [Entry(m.thread, Miss)] else []
    case _ => []
  }

  /** The operation that returns after this access, with its result. */
  function ReplyOf(l: List, m: Move): seq<Entry> {
    if !Enabled(l, m) || m.Begin? then [] else
    match l.threads[m.thread]
    case CountUp(node) => [Entry(m.thread, Put(node))]
    case CountDown(top) => [Entry(m.thread, Take(top))]
    case CheckTail => if l.tail == NULL then [Entry(m.thread, Miss)] else []
    case SpinTail => if l.tail == NULL then [Entry(m.thread, Miss)] else []
    case _ => []
  }

  function Execute(l: List, moves: seq<Move>): History {
    if moves == [] then History(l, View([], NoClaim), [], []) else
    var h := Execute(l, moves[..|moves| - 1]);
    var m := moves[|moves| - 1];
    History(Next(h.list, m), Track(h.list, h.view, m), h.effects + EffectOf(h.list, m), h.replies + ReplyOf(h.list, m))
  }

  /** A sequential FIFO queue performs the operations in order; None when it would have answered differently. */
  function Replay(effects: seq<Entry>): Option<seq<nat>> {
    if effects == [] then Some([]) else
    match Replay(effects[..|effects| - 1])
    case None => None
    case Some(q) =>
      match effects[|effects| - 1].op
      case Put(node) => Some(q + [node])
      case Take(node) => if q != [] && q[0] == node then Some(q[1..]) else None
      case Miss => if q == [] then Some(q) else None
  }

  /** The operations of one thread, in order. */
  function By(entries: seq<Entry>, thread: nat): seq<Op> {
    if entries == [] then [] else
    var rest := By(entries[..|entries| - 1], thread);
    if entries[|entries| - 1].thread == thread then rest + [entries[|entries| - 1].op] else rest
  }

  /** The operation a thread has performed but not returned from. */
  function Unreplied(pc: Pc): seq<Op> {
    match pc
    case Link(_, node) => [Put(node)]
    case PublishFirst(node) => [Put(node)]
    case CountUp(node) => [Put(node)]
    case _ => if Claiming(pc) || pc.ClearNext? || pc.CountDown? then [Take(Held(pc))] else []
  }

  function Mine(entries: seq<Entry>, thread: nat): seq<Op> {
    if entries != [] && entries[0].thread == thread then [entries[0].op] else []
  }

  lemma Extend(entries: seq<Entry>, more: seq<Entry>, thread: nat)
    requires |more| <= 1
    ensures By(entries + more, thread) == By(entries, thread) + Mine(more, thread)
  {
    if more == [] {
      assert entries + more == entries;
    } else {
      assert (entries + more)[..|entries|] == entries;
    }
  }

  /** Every run keeps the invariant beside its abstract queue. */
  lemma {:induction false} Reachable(l: List, moves: seq<Move>)
    requires Initial(l)
    ensures Inv(Execute(l, moves).list, Execute(l, moves).view)
  {
    if moves == [] {
      InitialInv(l);
    } else {
      Reachable(l, moves[..|moves| - 1]);
      var h := Execute(l, moves[..|moves| - 1]);
      Preserved(h.list, h.view, moves[|moves| - 1]);
    }
  }

  /** One access does to the abstract queue what its operation does to a sequential queue. */
  lemma StepRefines(l: List, v: View, m: Move, effects: seq<Entry>)
    requires Inv(l, v) && Replay(effects) == Some(v.queue)
    ensures Replay(effects + EffectOf(l, m)) == Some(Track(l, v, m).queue)
  {
    var e := EffectOf(l, m);
    if e == [] {
      assert effects + e == effects;
      if Enabled(l, m) && m.Step? && l.threads[m.thread].CasHead? {
        assert Knows(l, v, l.threads[m.thread]);
      }
    } else {
      assert (effects + e)[..|effects|] == effects;
      EmptyTail(l, v);
      if l.threads[m.thread].CasHead? {
        assert Knows(l, v, l.threads[m.thread]);
      }
    }
  }

  /** An access of one thread moves no other thread. */
  lemma OthersStay(l: List, m: Move, t: nat)
    requires t < |l.threads|
    ensures |Next(l, m).threads| == |l.threads|
    ensures t != m.thread ==> Next(l, m).threads[t] == l.threads[t]
  {
  }

  /** One access completes exactly the operation its thread has performed and not returned from. */
  lemma StepReplies(l: List, m: Move, t: nat)
    requires t < |l.threads| && |Next(l, m).threads| == |l.threads|
    ensures Unreplied(l.threads[t]) + Mine(EffectOf(l, m), t) ==
            Mine(ReplyOf(l, m), t) + Unreplied(Next(l, m).threads[t])
  {
    OthersStay(l, m, t);
    if t == m.thread && Enabled(l, m) && m.Step? {
      var pc := l.threads[t];
      if pc.ResetNext? || pc.SwapTail? || pc.Link? || pc.PublishFirst? || pc.CountUp? {
        EnqueueReplies(l, m, t);
      } else {
        DequeueReplies(l, m, t);
      }
    }
  }

  lemma EnqueueReplies(l: List, m: Move, t: nat)
    requires t == m.thread && Enabled(l, m) && m.Step?
    requires var pc := l.threads[t]; pc.ResetNext? || pc.SwapTail? || pc.Link? || pc.PublishFirst? || pc.CountUp?
    ensures Next(l, m) == EnqueueStep(l, t)
    ensures Unreplied(l.threads[t]) + Mine(EffectOf(l, m), t) ==
            Mine(ReplyOf(l, m), t) + Unreplied(EnqueueStep(l, t).threads[t])
  {
  }

  lemma DequeueReplies(l: List, m: Move, t: nat)
    requires t == m.thread && Enabled(l, m) && m.Step?
    requires var pc := l.threads[t]; !(pc.ResetNext? || pc.SwapTail? || pc.Link? || pc.PublishFirst? || pc.CountUp?)
    ensures Unreplied(l.threads[t]) + Mine(EffectOf(l, m), t) ==
            Mine(ReplyOf(l, m), t) + Unreplied(DequeueStep(l, t, m.weak).threads[t])
  {
    var pc := l.threads[t];
    if Claiming(pc) || pc.ClearNext? || pc.CountDown? {
      HoldingReplies(l, m, t);
    } else {
      LookingReplies(l, m, t);
    }
  }

  lemma HoldingReplies(l: List, m: Move, t: nat)
    requires t == m.thread && Enabled(l, m) && m.Step?
    requires Claiming(l.threads[t]) || l.threads[t].ClearNext? || l.threads[t].CountDown?
    ensures Unreplied(l.threads[t]) + Mine(EffectOf(l, m), t) ==
            Mine(ReplyOf(l, m), t) + Unreplied(DequeueStep(l, t, m.weak).threads[t])
  {
    var op := Take(Held(l.threads[t]));
    assert Unreplied(l.threads[t]) == [op] && EffectOf(l, m) == [];
    if !l.threads[t].CountDown? {
      assert Unreplied(DequeueStep(l, t, m.weak).threads[t]) == [op] && ReplyOf(l, m) == [];
    }
  }

  lemma LookingReplies(l: List, m: Move, t: nat)
    requires t == m.thread && Enabled(l, m) && m.Step?
    requires var pc := l.threads[t]; pc.LoadHead? || pc.CheckTail? || pc.SpinHead? || pc.SpinTail? || pc.CasHead?
    ensures Unreplied(l.threads[t]) + Mine(EffectOf(l, m), t) ==
            Mine(ReplyOf(l, m), t) + Unreplied(DequeueStep(l, t, m.weak).threads[t])
  {
    assert Unreplied(l.threads[t]) == [];
  }

  /** Effects are legal for the abstract queue, and each thread has returned all of its effects but the last. */
  ghost predicate Faithful(h: History) {
    && Replay(h.effects) == Some(h.view.queue)
    && forall t :: 0 <= t < |h.list.threads| ==> By(h.effects, t) == By(h.replies, t) + Unreplied(h.list.threads[t])
  }

  lemma StepFaithful(h: History, m: Move, h': History)
    requires Inv(h.list, h.view) && Faithful(h)
    requires h' == History(Next(h.list, m), Track(h.list, h.view, m), h.effects + EffectOf(h.list, m),
             h.replies + ReplyOf(h.list, m))
    ensures Faithful(h') && |h'.list.threads| == |h.list.threads|
  {
    StepRefines(h.list, h.view, m, h.effects);
    SameThreads(h.list, m);
    forall t | 0 <= t < |h'.list.threads|
      ensures By(h'.effects, t) == By(h'.replies, t) + Unreplied(h'.list.threads[t])
    {
      ThreadFaithful(h, m, h', t);
    }
  }

  lemma AtMostOne(l: List, m: Move)
    ensures |EffectOf(l, m)| <= 1 && |ReplyOf(l, m)| <= 1
  {
  }

  lemma Regroup(a: seq<Op>, b: seq<Op>, c: seq<Op>)
    ensures (a + b) + c == a + (b + c)
  {
  }

  lemma {:induction false} Compose(effects: seq<Entry>, replies: seq<Entry>, effect: seq<Entry>, reply: seq<Entry>,
                before: seq<Op>, after: seq<Op>, t: nat)
    requires |effect| <= 1 && |reply| <= 1
    requires By(effects, t) == By(replies, t) + before
    requires before + Mine(effect, t) == Mine(reply, t) + after
    ensures By(effects + effect, t) == By(replies + reply, t) + after
  {
    Extend(effects, effect, t);
    Extend(replies, reply, t);
    Regroup(By(replies, t), before, Mine(effect, t));
    Regroup(By(replies, t), Mine(reply, t), after);
  }

  lemma ThreadFaithful(h: History, m: Move, h': History, t: nat)
    requires t < |h.list.threads| == |h'.list.threads| && h'.list == Next(h.list, m)
    requires By(h.effects, t) == By(h.replies, t) + Unreplied(h.list.threads[t])
    requires h'.effects == h.effects + EffectOf(h.list, m) && h'.replies == h.replies + ReplyOf(h.list, m)
    ensures By(h'.effects, t) == By(h'.replies, t) + Unreplied(h'.list.threads[t])
  {
    AtMostOne(h.list, m);
    StepReplies(h.list, m, t);
    Compose(h.effects, h.replies, EffectOf(h.list, m), ReplyOf(h.list, m), Unreplied(h.list.threads[t]),
        Unreplied(h'.list.threads[t]), t);
  }

  lemma SameThreads(l: List, m: Move)
    ensures |Next(l, m).threads| == |l.threads|
  {
    if |l.threads| > 0 {
      OthersStay(l, m, 0);
    }
  }

  /**
   Linearizability. The effects of any run are a history of a sequential FIFO
   queue that ends as the abstract queue, and each thread's effects are exactly
   the results it returned, in order, followed by the one it has yet to return.
   */
  lemma {:induction false} Linearizable(l: List, moves: seq<Move>)
    requires Initial(l)
    ensures Faithful(Execute(l, moves)) && |Execute(l, moves).list.threads| == |l.threads|
  {
    if moves != [] {
      Linearizable(l, moves[..|moves| - 1]);
      Reachable(l, moves[..|moves| - 1]);
      StepFaithful(Execute(l, moves[..|moves| - 1]), moves[|moves| - 1], Execute(l, moves));
    }
  }

  // ---------------------------------------------------------------------
  // Every call is answered
  // ---------------------------------------------------------------------

  /** The call that a thread makes in this move, if any. */
  function CallOf(l: List, m: Move, t: nat): seq<Call> {
    if Enabled(l, m) && m.Begin? && m.thread == t then [m.call] else []
  }

  function CallsBy(l: List, moves: seq<Move>, t: nat): seq<Call> {
    if moves == [] then []
    else CallsBy(l, moves[..|moves| - 1], t) + CallOf(Execute(l, moves[..|moves| - 1]).list, moves[|moves| - 1], t)
  }

  /** An answer fits the call. */
  predicate Answers(call: Call, op: Op) {
    match call
    case Enqueue(node) => op == Put(node)
    case Dequeue => op.Take? || op.Miss?
  }

  /** A thread is inside the call. */
  predicate Serves(call: Call, pc: Pc) {
    match call
    case Enqueue(node) =>
      pc == ResetNext(node) || pc == SwapTail(node) || (pc.Link? && pc.node == node) || pc == PublishFirst(node)
      || pc == CountUp(node)
    case Dequeue =>
      pc.LoadHead? || pc.CheckTail? || pc.SpinHead? || pc.SpinTail? || pc.CasHead? || Claiming(pc) || pc.ClearNext?
      || pc.CountDown?
  }

  /** Every call but the one the thread is in has been answered, in order, with an answer that fits it. */
  ghost predicate Answered(calls: seq<Call>, answers: seq<Op>, pc: Pc) {
    && |calls| == |answers| + (if pc.Idle? then 0 else 1)
    && (forall k :: 0 <= k < |answers| ==> Answers(calls[k], answers[k]))
    && (!pc.Idle? ==> Serves(calls[|calls| - 1], pc))
  }

  /** An access inside a call stays in it, or ends it with its answer. */
  lemma ServeStep(l: List, m: Move, t: nat, call: Call)
    requires t < |l.threads| == |Next(l, m).threads| && m.Step? && m.thread == t && Serves(call, l.threads[t])
    ensures if ReplyOf(l, m) == [] then Serves(call, Next(l, m).threads[t])
            else Next(l, m).threads[t].Idle? && ReplyOf(l, m)[0].thread == t && Answers(call, ReplyOf(l, m)[0].op)
  {
    if call.Enqueue? {
      assert Next(l, m) == EnqueueStep(l, t);
    } else {
      assert Next(l, m) == DequeueStep(l, t, m.weak);
    }
  }

  lemma AnswerStep(l: List, m: Move, t: nat, calls: seq<Call>, answers: seq<Op>)
    requires t < |l.threads| == |Next(l, m).threads| && Answered(calls, answers, l.threads[t])
    ensures Answered(calls + CallOf(l, m, t), answers + Mine(ReplyOf(l, m), t), Next(l, m).threads[t])
  {
    OthersStay(l, m, t);
    if m.thread == t && m.Step? && !l.threads[t].Idle? {
      ServeStep(l, m, t, calls[|calls| - 1]);
    }
  }

  /**
   Every call of every thread is answered once, in order, and rightly for what it
   asked, but for the one the thread is in.
   */
  lemma {:induction false} CallsAnswered(l: List, moves: seq<Move>, t: nat)
    requires Initial(l) && t < |l.threads|
    ensures var h := Execute(l, moves);
            |h.list.threads| == |l.threads| && Answered(CallsBy(l, moves, t), By(h.replies, t), h.list.threads[t])
  {
    if moves != [] {
      var h, m := Execute(l, moves[..|moves| - 1]), moves[|moves| - 1];
      CallsAnswered(l, moves[..|moves| - 1], t);
      SameThreads(h.list, m);
      AtMostOne(h.list, m);
      Extend(h.replies, ReplyOf(h.list, m), t);
      AnswerStep(h.list, m, t, CallsBy(l, moves[..|moves| - 1], t), By(h.replies, t));
    }
  }

  function Puts(effects: seq<Entry>): seq<nat> {
    if effects == [] then [] else
    var rest := Puts(effects[..|effects| - 1]);
    if effects[|effects| - 1].op.Put? then rest + [effects[|effects| - 1].op.node] else rest
  }

  function Takes(effects: seq<Entry>): seq<nat> {
    if effects == [] then [] else
    var rest := Takes(effects[..|effects| - 1]);
    if effects[|effects| - 1].op.Take? then rest + [effects[|effects| - 1].op.node] else rest
  }

  lemma {:induction false} ReplayOrder(effects: seq<Entry>)
    requires Replay(effects).Some?
    ensures Puts(effects) == Takes(effects) + Replay(effects).value
  {
    if effects != [] {
      ReplayOrder(effects[..|effects| - 1]);
    }
  }

  /**
   First in, first out: in every run the claimed nodes are a prefix of the
   tail-exchange order, and the queue is the rest.
   */
  lemma {:induction false} FirstInFirstOut(l: List, moves: seq<Move>)
    requires Initial(l)
    ensures Puts(Execute(l, moves).effects) == Takes(Execute(l, moves).effects) + Execute(l, moves).view.queue
  {
    Linearizable(l, moves);
    ReplayOrder(Execute(l, moves).effects);
  }

  // ---------------------------------------------------------------------
  // The source's assertions, the count, and quiescence
  // ---------------------------------------------------------------------

  /** The assertions on shared state that thread `t` is about to pass. */
  predicate AssertionsAt(l: List, t: nat)
    requires t < |l.threads|
  {
    match l.threads[t]
    case ReadNext(top) => l.head == NULL && top != NULL
    case CasTail(_) => l.head == NULL
    case RereadNext(_) => l.head == NULL
    case Link(prev, _) => NextOf(l, prev) == NULL
    case PublishFirst(_) => l.head == NULL
    case _ => true
  }

  lemma AssertionsFromInv(l: List, v: View, t: nat)
    requires Inv(l, v) && t < |l.threads|
    ensures AssertionsAt(l, t)
  {
    assert Knows(l, v, l.threads[t]);
  }

  lemma {:induction false} AssertionsHold(l: List, moves: seq<Move>, t: nat)
    requires Initial(l) && t < |Execute(l, moves).list.threads|
    ensures AssertionsAt(Execute(l, moves).list, t)
  {
    Reachable(l, moves);
    AssertionsFromInv(Execute(l, moves).list, Execute(l, moves).view, t);
  }

  /** The counter differs from the abstract length by the operations in flight, modulo its width. */
  lemma {:induction false} CountTracksLength(l: List, moves: seq<Move>)
    requires Initial(l)
    ensures Counted(Execute(l, moves).list, Execute(l, moves).view)
  {
    Reachable(l, moves);
  }

  ghost predicate Quiescent(l: List) {
    forall t :: 0 <= t < |l.threads| ==> l.threads[t].Idle?
  }

  /** The list in memory, read from the head, is the queue; the count is exact and no node is lost. */
  ghost predicate Spells(l: List, q: seq<nat>) {
    && l.head == (if q == [] then NULL else q[0])
    && l.tail == (if q == [] then NULL else q[|q| - 1])
    && (forall k {:trigger NextOf(l, q[k])} :: 0 <= k < |q| ==> NextOf(l, q[k]) == if k == |q| - 1 then NULL
         else q[k + 1])
    && Distinct(q)
    && l.count == |q| % WORD
    && (forall n :: n in l.inside <==> n in q)
  }

  lemma QuietList(l: List, v: View)
    requires Inv(l, v) && Quiescent(l)
    ensures Spells(l, v.queue)
  {
    TotalZero(l.threads, Uncounted);
    assert !Publishing(l.threads) && v.claim.NoClaim?;
    forall n | n in l.inside
      ensures n in v.queue
    {
      assert !HeldBySome(l.threads, n);
    }
    var q := v.queue;
    assert Chain(v) == q;
    forall k {:trigger NextOf(l, q[k])} | 0 <= k < |q| - 1
      ensures NextOf(l, q[k]) == q[k + 1]
    {
      assert !Linking(l.threads, q[k], q[k + 1]);
    }
  }

  /** With no operation in flight the memory is a plain linked list of the abstract queue. */
  lemma {:induction false} QuiescentList(l: List, moves: seq<Move>)
    requires Initial(l) && Quiescent(Execute(l, moves).list)
    ensures Spells(Execute(l, moves).list, Execute(l, moves).view.queue)
  {
    Reachable(l, moves);
    QuietList(Execute(l, moves).list, Execute(l, moves).view);
  }

  /**
   A node inside the list is queued or in exactly one thread's hands, and not
   both; no other node is in either place.
   */
  ghost predicate InOnePlace(l: List, q: seq<nat>, n: nat) {
    && (n in l.inside <==> n in q || (n != NULL && HeldBySome(l.threads, n)))
    && !(n in q && HeldBySome(l.threads, n))
    && (forall t, u :: 0 <= t < u < |l.threads| && Holding(l.threads[t]) && Holding(l.threads[u]) ==>
          !(Held(l.threads[t]) == n == Held(l.threads[u])))
  }

  lemma OnePlace(l: List, v: View, n: nat)
    requires Inv(l, v)
    ensures InOnePlace(l, v.queue, n)
  {
  }

  /** At every moment of every run. */
  lemma {:induction false} NodesConserved(l: List, moves: seq<Move>, n: nat)
    requires Initial(l)
    ensures InOnePlace(Execute(l, moves).list, Execute(l, moves).view.queue, n)
  {
    Reachable(l, moves);
    OnePlace(Execute(l, moves).list, Execute(l, moves).view, n);
  }

  // ---------------------------------------------------------------------
  // The spin loops
  // ---------------------------------------------------------------------

  /** What a dequeuer spins on: no head although the tail says the list is not empty. */
  predicate Blocked(l: List) {
    l.head == NULL && l.tail != NULL
  }

  /** A thread that waits for another: it would go round its loop again. */
  predicate Waits(l: List, pc: Pc) {
    (pc.SpinHead? && l.head == NULL) || (pc.SpinTail? && l.tail != NULL) || (pc.AwaitNext? && NextOf(l, pc.top) == NULL)
  }

  /** How many accesses by others, at most, before a spinning dequeuer can go on. */
  function Distance(l: List, v: View): nat {
    if !Blocked(l) then 0
    else if v.claim.NoClaim? || v.claim.thread >= |l.threads| then 1
    else
      var pending := if NextOf(l, v.claim.node) == NULL then 1 else 0;
      match l.threads[v.claim.thread]
      case ReadNext(_) => 7
      case StoreHead(_, next) => if next == NULL then 6 else 1
      case CasTail(_) => 5
      case AwaitNext(_) => 3 + pending
      case RereadNext(_) => 2
      case _ => 1
  }

  /**
   Its next access brings the release nearer: the claimant unless it waits for a
   link, else who will write the link, or who publishes the head.
   */
  predicate Helps(l: List, v: View, t: nat) {
    && t < |l.threads|
    && (if v.claim.NoClaim? then l.threads[t].PublishFirst?
        else if v.claim.thread < |l.threads| && !Waits(l, l.threads[v.claim.thread]) then t == v.claim.thread
        else v.queue != [] && l.threads[t] == Link(v.claim.node, v.queue[0]))
  }

  /** While the list is blocked, some thread that is not waiting helps. */
  lemma Helper(l: List, v: View) returns (t: nat)
    requires Inv(l, v) && Blocked(l)
    ensures Helps(l, v, t) && !l.threads[t].Idle? && !Waits(l, l.threads[t])
  {
    ChainDistinct(l, v);
    if v.claim.NoClaim? {
      assert Publishing(l.threads);
      t :| 0 <= t < |l.threads| && l.threads[t].PublishFirst?;
    } else {
      t := v.claim.thread;
      assert Knows(l, v, l.threads[t]);
      ClaimedLinks(l, v, t);
      if Waits(l, l.threads[t]) {
        var c := Chain(v);
        assert c[0] == v.claim.node && c[1] == v.queue[0] && c[1] in c;
        assert Linking(l.threads, c[0], c[1]);
        t :| 0 <= t < |l.threads| && l.threads[t] == Link(c[0], c[1]);
      }
    }
  }

  /** Publishing the head releases the list. */
  lemma PublisherAdvances(l: List, v: View, t: nat, weak: bool)
    requires Inv(l, v) && Blocked(l) && t < |l.threads| && l.threads[t].PublishFirst? && v.claim.NoClaim?
    ensures !Blocked(Next(l, Step(t, weak)))
  {
    assert v.queue[0] in v.queue;
  }

  /** Writing the link lets the claimant go on. */
  lemma LinkerAdvances(l: List, v: View, t: nat, weak: bool)
    requires Inv(l, v) && v.claim.Claimed? && v.queue != [] && t < |l.threads| && t != v.claim.thread < |l.threads|
    requires l.threads[t] == Link(v.claim.node, v.queue[0])
    ensures NextOf(Next(l, Step(t, weak)), v.claim.node) != NULL && Track(l, v, Step(t, weak)) == v
    ensures Next(l, Step(t, weak)).head == l.head && Next(l, Step(t, weak)).tail == l.tail
    ensures |Next(l, Step(t, weak)).threads| == |l.threads|
    ensures Next(l, Step(t, weak)).threads[v.claim.thread] == l.threads[v.claim.thread]
  {
    assert v.queue[0] in v.queue;
  }

  /** The claimant on its way to the tail exchange. */
  lemma EarlyClaimantAdvances(l: List, v: View, t: nat, weak: bool)
    requires Inv(l, v) && Blocked(l) && v.claim.Claimed? && t == v.claim.thread
    requires t < |l.threads| && (l.threads[t].ReadNext? || l.threads[t].StoreHead? || l.threads[t].CasTail?)
    ensures Distance(Next(l, Step(t, weak)), Track(l, v, Step(t, weak))) < Distance(l, v)
  {
    assert Knows(l, v, l.threads[t]);
    ClaimedLinks(l, v, t);
    if v.queue != [] {
      assert v.queue[0] in v.queue;
    }
  }

  /** The claimant that has found another node behind its own. */
  lemma LateClaimantAdvances(l: List, v: View, t: nat, weak: bool)
    requires Inv(l, v) && Blocked(l) && v.claim.Claimed? && t == v.claim.thread && t < |l.threads|
    requires !Waits(l, l.threads[t])
    requires l.threads[t].AwaitNext? || l.threads[t].RereadNext? || l.threads[t].RestoreHead?
    ensures Distance(Next(l, Step(t, weak)), Track(l, v, Step(t, weak))) < Distance(l, v)
  {
    assert Knows(l, v, l.threads[t]);
    ClaimedLinks(l, v, t);
    assert v.queue[0] in v.queue;
  }

  /** The next access of a thread that helps brings the release nearer. */
  lemma HelperAdvances(l: List, v: View, t: nat, weak: bool)
    requires Inv(l, v) && Blocked(l) && Helps(l, v, t)
    ensures Distance(Next(l, Step(t, weak)), Track(l, v, Step(t, weak))) < Distance(l, v)
  {
    if v.claim.NoClaim? {
      PublisherAdvances(l, v, t, weak);
    } else if t != v.claim.thread {
      LinkerAdvances(l, v, t, weak);
    } else if l.threads[t].ReadNext? || l.threads[t].StoreHead? || l.threads[t].CasTail? {
      EarlyClaimantAdvances(l, v, t, weak);
    } else {
      LateClaimantAdvances(l, v, t, weak);
    }
  }

  /** Nobody else touches a claim on a blocked list, nor takes back the link of the claimed node. */
  lemma ClaimStays(l: List, v: View, m: Move)
    requires Inv(l, v) && Blocked(l) && (v.claim.Claimed? ==> m.thread != v.claim.thread)
    requires !(m.Step? && Helps(l, v, m.thread))
    ensures Track(l, v, m).claim == v.claim
    ensures v.queue != [] ==> Track(l, v, m).queue != [] && Track(l, v, m).queue[0] == v.queue[0]
    ensures v.claim.Claimed? && NextOf(l, v.claim.node) != NULL ==> NextOf(Next(l, m), v.claim.node) != NULL
  {
    if Enabled(l, m) {
      assert Knows(l, v, l.threads[m.thread]);
      if v.claim.Claimed? && m.Step? {
        OnlyHolder(l, v, m.thread);
      }
    }
  }

  /** The claimed node is in no other thread's hands. */
  lemma OnlyHolder(l: List, v: View, t: nat)
    requires Inv(l, v) && v.claim.Claimed? && t < |l.threads| && t != v.claim.thread
    ensures !Claiming(l.threads[t]) && (Holding(l.threads[t]) ==> Held(l.threads[t]) != v.claim.node)
    ensures l.threads[t].Link? ==> l.threads[t].node != NULL
  {
    var u := v.claim.thread;
    assert Holding(l.threads[u]) && Held(l.threads[u]) == v.claim.node;
    if l.threads[t].Link? {
      LinkedNode(l, v, t);
    }
  }

  lemma LinkedNode(l: List, v: View, t: nat)
    requires Inv(l, v) && t < |l.threads| && l.threads[t].Link?
    ensures l.threads[t].node != NULL
  {
    ChainDistinct(l, v);
    var c := Chain(v);
    assert Follows(c, l.threads[t].prev, l.threads[t].node);
    var k :| Adjacent(c, k, l.threads[t].prev, l.threads[t].node);
    assert c[k + 1] in c;
  }

  /** No move of any thread takes a blocked list farther from its release. */
  lemma NeverFarther(l: List, v: View, m: Move)
    requires Inv(l, v) && Blocked(l) && Blocked(Next(l, m))
    ensures Distance(Next(l, m), Track(l, v, m)) <= Distance(l, v)
  {
    if Enabled(l, m) && m.Step? {
      if Helps(l, v, m.thread) {
        HelperAdvances(l, v, m.thread, m.weak);
      } else if v.claim.Claimed? && m.thread == v.claim.thread {
        WaiterTurns(l, v, m);
      } else {
        ClaimStays(l, v, m);
        OthersMove(l, v, m);
      }
    } else {
      BeginMoves(l, v, m);
    }
  }

  /** A thread that enters the list touches nothing. */
  lemma BeginMoves(l: List, v: View, m: Move)
    requires !(Enabled(l, m) && m.Step?)
    requires v.claim.Claimed? ==> v.claim.thread < |l.threads| && Claiming(l.threads[v.claim.thread])
    ensures Distance(Next(l, m), Track(l, v, m)) == Distance(l, v)
  {
  }

  /** A claimant that does not help goes round its loop. */
  lemma WaiterTurns(l: List, v: View, m: Move)
    requires Enabled(l, m) && m.Step? && !Helps(l, v, m.thread) && v.claim.Claimed? && m.thread == v.claim.thread
    requires Claiming(l.threads[m.thread])
    ensures Next(l, m) == l && Track(l, v, m) == v
  {
  }

  lemma OthersMove(l: List, v: View, m: Move)
    requires Enabled(l, m) && Blocked(l) && Blocked(Next(l, m)) && Track(l, v, m).claim == v.claim
    requires v.claim.Claimed? ==> m.thread != v.claim.thread
    requires v.claim.Claimed? && NextOf(l, v.claim.node) != NULL ==> NextOf(Next(l, m), v.claim.node) != NULL
    ensures Distance(Next(l, m), Track(l, v, m)) <= Distance(l, v)
  {
    if v.claim.Claimed? {
      SameThreads(l, m);
      if v.claim.thread < |l.threads| {
        OthersStay(l, m, v.claim.thread);
      }
    }
  }

  /** A thread that helps goes on helping until it, or another that helps, moves. */
  lemma HelperStays(l: List, v: View, m: Move, t: nat)
    requires Inv(l, v) && Blocked(l) && Blocked(Next(l, m)) && Helps(l, v, t) && !(m.Step? && Helps(l, v, m.thread))
    ensures Helps(Next(l, m), Track(l, v, m), t)
  {
    if Enabled(l, m) && m.Step? {
      SameThreads(l, m);
      OthersStay(l, m, t);
      if v.claim.Claimed? && m.thread == v.claim.thread {
        WaiterTurns(l, v, m);
      } else {
        ClaimStays(l, v, m);
        if v.claim.Claimed? {
          OthersStay(l, m, v.claim.thread);
          if Waits(l, l.threads[v.claim.thread]) {
            LinkerStays(l, v, m);
          }
        }
      }
    } else {
      assert !l.threads[t].Idle?;
    }
  }

  /** While the claimant waits, its link is not written by anybody who does not help. */
  lemma LinkerStays(l: List, v: View, m: Move)
    requires Inv(l, v) && Enabled(l, m) && m.Step? && !Helps(l, v, m.thread) && v.claim.Claimed?
    requires m.thread != v.claim.thread
    requires Waits(l, l.threads[v.claim.thread])
    ensures NextOf(l, v.claim.node) == NULL && NextOf(Next(l, m), v.claim.node) == NULL
  {
    assert l.threads[v.claim.thread].AwaitNext?;
    if l.threads[m.thread].Link? && l.threads[m.thread].prev == v.claim.node {
      OnlyLinker(l, v, m.thread);
    } else {
      LinkKept(l, m, v.claim.node);
    }
  }

  /** Only the front of the queue is linked behind the claimed node. */
  lemma OnlyLinker(l: List, v: View, t: nat)
    requires Inv(l, v) && v.claim.Claimed? && t < |l.threads| && l.threads[t].Link? && l.threads[t].prev == v.claim.node
    ensures v.queue != [] && l.threads[t].node == v.queue[0]
  {
    ChainDistinct(l, v);
    var c := Chain(v);
    assert Follows(c, l.threads[t].prev, l.threads[t].node);
    var k :| Adjacent(c, k, l.threads[t].prev, l.threads[t].node);
    assert c[0] == c[k];
  }

  lemma LinkKept(l: List, m: Move, n: nat)
    requires Enabled(l, m) && m.Step? && NextOf(l, n) == NULL
    requires !(l.threads[m.thread].Link? && l.threads[m.thread].prev == n)
    ensures NextOf(Next(l, m), n) == NULL
  {
  }

  // Fairness: a round is a stretch of a run in which every thread makes a step.

  ghost predicate Round(l: List, moves: seq<Move>) {
    forall t: nat :: t < |l.threads| ==> MovesIn(moves, t)
  }

  ghost predicate MovesIn(moves: seq<Move>, t: nat) {
    exists i :: 0 <= i < |moves| && moves[i].Step? && moves[i].thread == t
  }

  /** The list is blocked now and after each of the moves. */
  predicate BlockedThroughout(l: List, moves: seq<Move>)
    decreases |moves|
  {
    Blocked(l) && (moves == [] || BlockedThroughout(Next(l, moves[0]), moves[1..]))
  }

  function ContinueView(l: List, v: View, moves: seq<Move>): View
    decreases |moves|
  {
    if moves == [] then v else ContinueView(Next(l, moves[0]), Track(l, v, moves[0]), moves[1..])
  }

  /** A stretch of a run in which the list stays blocked does not take it farther from its release. */
  lemma {:induction false} StretchNeverFarther(l: List, v: View, moves: seq<Move>)
    requires Inv(l, v) && BlockedThroughout(l, moves)
    ensures Inv(Continue(l, moves), ContinueView(l, v, moves)) && Blocked(Continue(l, moves))
    ensures Distance(Continue(l, moves), ContinueView(l, v, moves)) <= Distance(l, v)
    ensures |Continue(l, moves).threads| == |l.threads|
    decreases |moves|
  {
    if moves != [] {
      assert Blocked(Next(l, moves[0]));
      NeverFarther(l, v, moves[0]);
      Preserved(l, v, moves[0]);
      SameThreads(l, moves[0]);
      StretchNeverFarther(Next(l, moves[0]), Track(l, v, moves[0]), moves[1..]);
    }
  }

  /** When a thread that helps moves in it, the stretch brings the release nearer. */
  lemma {:induction false} StretchNearer(l: List, v: View, moves: seq<Move>, t: nat)
    requires Inv(l, v) && BlockedThroughout(l, moves) && Helps(l, v, t) && MovesIn(moves, t)
    ensures Distance(Continue(l, moves), ContinueView(l, v, moves)) < Distance(l, v)
    decreases |moves|
  {
    var m, l', v' := moves[0], Next(l, moves[0]), Track(l, v, moves[0]);
    assert Blocked(l');
    Preserved(l, v, m);
    if m.Step? && Helps(l, v, m.thread) {
      HelperAdvances(l, v, m.thread, m.weak);
      StretchNeverFarther(l', v', moves[1..]);
    } else {
      NeverFarther(l, v, m);
      HelperStays(l, v, m, t);
      StillMoves(moves, t);
      StretchNearer(l', v', moves[1..], t);
    }
  }

  lemma StillMoves(moves: seq<Move>, t: nat)
    requires MovesIn(moves, t) && !(moves[0].Step? && moves[0].thread == t)
    ensures MovesIn(moves[1..], t)
  {
    var i :| 0 <= i < |moves| && moves[i].Step? && moves[i].thread == t;
    assert moves[1..][i - 1] == moves[i];
  }

  /** Rounds that follow one another, with the list blocked all the time. */
  ghost predicate BlockedRounds(l: List, rounds: seq<seq<Move>>)
    decreases |rounds|
  {
    rounds == []
    || (Round(l, rounds[0]) && BlockedThroughout(l, rounds[0]) && BlockedRounds(Continue(l, rounds[0]), rounds[1..]))
  }

  lemma RoundNearer(l: List, v: View, round: seq<Move>)
    requires Inv(l, v) && Blocked(l) && Round(l, round) && BlockedThroughout(l, round)
    ensures Inv(Continue(l, round), ContinueView(l, v, round)) && Blocked(Continue(l, round))
    ensures Distance(Continue(l, round), ContinueView(l, v, round)) < Distance(l, v)
  {
    var t := Helper(l, v);
    StretchNearer(l, v, round, t);
    StretchNeverFarther(l, v, round);
  }

  lemma DistanceBound(l: List, v: View)
    ensures Distance(l, v) <= 7 && (Blocked(l) ==> Distance(l, v) >= 1)
  {
  }

  /**
   Under any schedule in which every thread makes a step from time to time, a
   blocked list is released before the seventh round is over: each round that
   leaves it blocked has brought the release nearer.
   */
  lemma {:induction false} FairSchedulesRelease(l: List, v: View, rounds: seq<seq<Move>>)
    requires Inv(l, v) && Blocked(l) && BlockedRounds(l, rounds)
    ensures |rounds| < Distance(l, v) <= 7
    decreases |rounds|
  {
    DistanceBound(l, v);
    if rounds != [] {
      RoundNearer(l, v, rounds[0]);
      FairSchedulesRelease(Continue(l, rounds[0]), ContinueView(l, v, rounds[0]), rounds[1..]);
    }
  }

  /** A sequence of accesses in which no access is one more turn of a spin loop. */
  ghost predicate NoneWaits(l: List, moves: seq<Move>)
    decreases |moves|
  {
    moves == [] ||
    (&& Enabled(l, moves[0]) && moves[0].Step? && !Waits(l, l.threads[moves[0].thread])
     && NoneWaits(Next(l, moves[0]), moves[1..]))
  }

  function Continue(l: List, moves: seq<Move>): List
    decreases |moves|
  {
    if moves == [] then l else Continue(Next(l, moves[0]), moves[1..])
  }

  /**
   The spin loops cannot all be stuck: at most seven accesses by threads that are
   not waiting release every spinner.
   */
  lemma {:induction false} SpinnersReleased(l: List, v: View) returns (moves: seq<Move>)
    requires Inv(l, v)
    ensures |moves| <= Distance(l, v) <= 7 && NoneWaits(l, moves) && !Blocked(Continue(l, moves))
    decreases Distance(l, v)
  {
    if Blocked(l) {
      var t := Helper(l, v);
      HelperAdvances(l, v, t, false);
      Preserved(l, v, Step(t, false));
      var rest := SpinnersReleased(Next(l, Step(t, false)), Track(l, v, Step(t, false)));
      moves := [Step(t, false)] + rest;
      assert moves[1..] == rest;
    } else {
      moves := [];
    }
  }

  /** Whoever waits, for a head or for a link, waits on a blocked list. */
  lemma WaitersSeeBlocked(l: List, v: View, t: nat)
    requires Inv(l, v) && t < |l.threads| && l.threads[t].AwaitNext?
    ensures Blocked(l)
  {
    assert Knows(l, v, l.threads[t]);
    ChainDistinct(l, v);
    var c := Chain(v);
    assert c[|c| - 1] in c;
  }
}
