/**
 The lock-free list as a machine of interleaved atomic accesses: any number of
 threads, each executing `enqueue` or `dequeue` one access to `m_head`,
 `m_tail`, `m_count` or a `next` link at a time.
 */
module FifoList {
  import opened Tally

  /** Where a thread is: the constructor names the next atomic access, its arguments are the thread's locals. */
  datatype Pc =
    | Idle
    // enqueue(node)
    | ResetNext(node: nat)                // node->setNext(nullptr)
    | SwapTail(node: nat)                 // oldTail = m_tail.exchange(node)
    | Link(prev: nat, node: nat)          // oldTail->setNext(node)
    | PublishFirst(node: nat)             // m_head.exchange(node)
    | CountUp(node: nat)                  // m_count++
    // dequeue()
    | LoadHead                            // oldHead = m_head
    | CheckTail                           // if (!m_tail) return nullptr
    | SpinHead                            // oldHead = m_head, inside the spin
    | SpinTail                            // if (!oldHead && !m_tail) return nullptr, inside the spin
    | CasHead(top: nat)                   // m_head.compare_exchange_weak(oldHead, nullptr)
    | ReadNext(top: nat)                  // newHead = oldHead->next()
    | StoreHead(top: nat, next: nat)      // m_head = newHead
    | CasTail(top: nat)                   // m_tail.compare_exchange_strong(oldTail, nullptr)
    | AwaitNext(top: nat)                 // while (!oldHead->next())
    | RereadNext(top: nat)                // the right-hand side of m_head = oldHead->next()
    | RestoreHead(top: nat, next: nat)    // the store of m_head = oldHead->next()
    | ClearNext(top: nat)                 // oldHead->setNext(nullptr)
    | CountDown(top: nat)                 // m_count--

  /** `inside` records the nodes handed to `enqueue` and not yet returned by `dequeue`. */
  datatype List = List(head: nat, tail: nat, count: int, next: map<nat, nat>, threads: seq<Pc>, inside: set<nat>)

  datatype Call = Enqueue(node: nat) | Dequeue

  /** A thread starts a call, or takes its next atomic access (`weak`: a weak exchange fails spuriously). */
  datatype Move = Begin(thread: nat, call: Call) | Step(thread: nat, weak: bool)

  function NextOf(l: List, node: nat): nat {
    if node in l.next then l.next[node] else NULL
  }

  function Goto(l: List, t: nat, pc: Pc): List
    requires t < |l.threads|
  {
    l.(threads := l.threads[t := pc])
  }

  predicate Enabled(l: List, m: Move) {
    && m.thread < |l.threads|
    && match m
       case Begin(t, Enqueue(node)) => l.threads[t].Idle? && node != NULL && node !in l.inside
       case Begin(t, Dequeue) => l.threads[t].Idle?
       case Step(t, _) => !l.threads[t].Idle?
  }

  /** One atomic access. A move that is not enabled changes nothing. */
  function Next(l: List, m: Move): List {
    if !Enabled(l, m) then l else
    match m
    case Begin(t, Enqueue(node)) => Goto(l.(inside := l.inside + {node}), t, ResetNext(node))
    case Begin(t, Dequeue) => Goto(l, t, LoadHead)
    case Step(t, weak) =>
      if l.threads[t].ResetNext? || l.threads[t].SwapTail? || l.threads[t].Link? || l.threads[t].PublishFirst?
          || l.threads[t].CountUp?
      then EnqueueStep(l, t) else DequeueStep(l, t, weak)
  }

  function EnqueueStep(l: List, t: nat): List
    requires t < |l.threads|
  {
    match l.threads[t]
    case ResetNext(node) => Goto(l.(next := l.next[node := NULL]), t, SwapTail(node))
    case SwapTail(node) =>
      Goto(l.(tail := node), t, if l.tail != NULL then Link(l.tail, node) else PublishFirst(node))
    case Link(prev, node) => Goto(l.(next := l.next[prev := node]), t, CountUp(node))
    case PublishFirst(node) => Goto(l.(head := node), t, CountUp(node))
    case CountUp(_) => Goto(l.(count := (l.count + 1) % WORD), t, Idle)
    case _ => l
  }

  function DequeueStep(l: List, t: nat, weak: bool): List
    requires t < |l.threads|
  {
    match l.threads[t]
    case LoadHead => Goto(l, t, if l.head == NULL then CheckTail else CasHead(l.head))
    case CheckTail => Goto(l, t, if l.tail == NULL then Idle else SpinHead)
    case SpinHead => Goto(l, t, if l.head == NULL then SpinTail else CasHead(l.head))
    case SpinTail => Goto(l, t, if l.tail == NULL then Idle else SpinHead)
    case CasHead(top) =>
      if l.head == top && !weak then Goto(l.(head := NULL), t, ReadNext(top))
      else Goto(l, t, if l.head == NULL then CheckTail else CasHead(l.head))
    case ReadNext(top) => Goto(l, t, StoreHead(top, NextOf(l, top)))
    case StoreHead(top, next) => Goto(l.(head := next), t, if next == NULL then CasTail(top) else ClearNext(top))
    case CasTail(top) =>
      if l.tail == top then Goto(l.(tail := NULL), t, ClearNext(top)) else Goto(l, t, AwaitNext(top))
    case AwaitNext(top) => if NextOf(l, top) == NULL then l else Goto(l, t, RereadNext(top))
    case RereadNext(top) => Goto(l, t, RestoreHead(top, NextOf(l, top)))
    case RestoreHead(top, next) => Goto(l.(head := next), t, ClearNext(top))
    case ClearNext(top) => Goto(l.(next := l.next[top := NULL]), t, CountDown(top))
    case CountDown(top) => Goto(l.(count := (l.count - 1) % WORD, inside := l.inside - {top}), t, Idle)
    case _ => l
  }

  ghost predicate Initial(l: List) {
    && l.head == NULL && l.tail == NULL && l.count == 0 && l.inside == {}
    && forall t :: 0 <= t < |l.threads| ==> l.threads[t] == Idle
  }

  // ---------------------------------------------------------------------
  // The abstract queue and the claim on it
  // ---------------------------------------------------------------------

  /** A dequeuer that has taken the head token and not given it back. */
  datatype Claim = NoClaim | Claimed(thread: nat, node: nat)

  /** The specification state that runs beside the machine; no access of the machine reads it. */
  datatype View = View(queue: seq<nat>, claim: Claim)

  predicate Claiming(pc: Pc) {
    pc.ReadNext? || pc.StoreHead? || pc.CasTail? || pc.AwaitNext? || pc.RereadNext? || pc.RestoreHead?
  }

  /** The linearization points: the tail exchange, and the head exchange that succeeds. */
  function Track(l: List, v: View, m: Move): View {
    if !Enabled(l, m) || m.Begin? then v else
    match l.threads[m.thread]
    case SwapTail(node) => v.(queue := v.queue + [node])
    case CasHead(top) =>
      if l.head == top && !m.weak && v.queue != [] then View(v.queue[1..], Claimed(m.thread, top)) else v
    case StoreHead(_, next) => if next != NULL then v.(claim := NoClaim) else v
    case CasTail(top) => if l.tail == top then v.(claim := NoClaim) else v
    case RestoreHead(_, _) => v.(claim := NoClaim)
    case _ => v
  }

  /** The nodes reachable once every pending link is made: the claimed node, then the queue. */
  function Chain(v: View): seq<nat> {
    if v.claim.NoClaim? then v.queue else [v.claim.node] + v.queue
  }

  /** The node that a thread alone may touch. */
  function Held(pc: Pc): nat {
    match pc
    case ResetNext(node) => node
    case SwapTail(node) => node
    case ReadNext(top) => top
    case StoreHead(top, _) => top
    case CasTail(top) => top
    case AwaitNext(top) => top
    case RereadNext(top) => top
    case RestoreHead(top, _) => top
    case ClearNext(top) => top
    case CountDown(top) => top
    case _ => NULL
  }

  predicate Holding(pc: Pc) {
    pc.ResetNext? || pc.SwapTail? || Claiming(pc) || pc.ClearNext? || pc.CountDown?
  }

  predicate Adjacent(c: seq<nat>, k: int, a: nat, b: nat) {
    0 <= k < |c| - 1 && c[k] == a && c[k + 1] == b
  }

  ghost predicate Follows(c: seq<nat>, a: nat, b: nat) {
    exists k :: Adjacent(c, k, a, b)
  }

  ghost predicate Linking(threads: seq<Pc>, a: nat, b: nat) {
    exists t :: 0 <= t < |threads| && threads[t] == Link(a, b)
  }

  ghost predicate Publishing(threads: seq<Pc>) {
    exists t :: 0 <= t < |threads| && threads[t].PublishFirst?
  }

  ghost predicate HeldBySome(threads: seq<Pc>, node: nat) {
    exists t :: 0 <= t < |threads| && Holding(threads[t]) && Held(threads[t]) == node
  }

  /** Each node is in the queue or in exactly one thread's hands, and nowhere else. */
  ghost predicate Owned(l: List, v: View) {
    && Distinct(v.queue)
    && (forall n :: n in v.queue ==> n != NULL && n in l.inside)
    && (forall t :: 0 <= t < |l.threads| && Holding(l.threads[t]) ==>
          Held(l.threads[t]) != NULL && Held(l.threads[t]) in l.inside && Held(l.threads[t]) !in v.queue)
    && (forall t, u :: 0 <= t < u < |l.threads| && Holding(l.threads[t]) && Holding(l.threads[u]) ==>
          Held(l.threads[t]) != Held(l.threads[u]))
  }

  /** No node is lost: whatever is inside is queued or in some thread's hands. */
  ghost predicate Conserved(l: List, v: View) {
    forall n :: n in l.inside ==>
      n in v.queue || HeldBySome(l.threads, n)
  }

  /** Only the claiming thread is between its head exchange and its hand-over. */
  ghost predicate ClaimedBy(l: List, v: View) {
    && (v.claim.Claimed? ==>
          v.claim.thread < |l.threads| && Claiming(l.threads[v.claim.thread])
              && Held(l.threads[v.claim.thread]) == v.claim.node)
    && (forall t :: 0 <= t < |l.threads| && Claiming(l.threads[t]) ==> v.claim == Claimed(t, Held(l.threads[t])))
  }

  /** The links follow the chain, except those a thread is about to write. */
  ghost predicate Linked(l: List, v: View) {
    var c := Chain(v);
    && l.tail == (if c == [] then NULL else c[|c| - 1])
    && (c != [] ==> NextOf(l, c[|c| - 1]) == NULL)
    && (forall k {:trigger NextOf(l, c[k])} :: 0 <= k < |c| - 1 ==>
          NextOf(l, c[k]) == c[k + 1] || (NextOf(l, c[k]) == NULL && Linking(l.threads, c[k], c[k + 1])))
  }

  ghost predicate PendingLinks(l: List, v: View) {
    && (forall t :: 0 <= t < |l.threads| && l.threads[t].Link? ==>
          Follows(Chain(v), l.threads[t].prev, l.threads[t].node) && NextOf(l, l.threads[t].prev) == NULL)
    && (forall t, u :: 0 <= t < u < |l.threads| && l.threads[t].Link? && l.threads[u].Link? ==>
          l.threads[t].prev != l.threads[u].prev)
  }

  /** The head token: a non-null head, a claim, an enqueuer about to publish the head, or an empty list. */
  ghost predicate HeadToken(l: List, v: View) {
    && (l.head != NULL ==> v.claim.NoClaim? && v.queue != [] && l.head == v.queue[0])
    && (l.head == NULL ==>
          v.queue == [] || v.claim.Claimed? || Publishing(l.threads))
    && (forall t :: 0 <= t < |l.threads| && l.threads[t].PublishFirst? ==>
          l.head == NULL && v.claim.NoClaim? && v.queue != [] && l.threads[t].node == v.queue[0])
    && (forall t, u :: 0 <= t < u < |l.threads| ==> !(l.threads[t].PublishFirst? && l.threads[u].PublishFirst?))
  }

  /** What a thread has learnt from the accesses it made. */
  ghost predicate Knows(l: List, v: View, pc: Pc) {
    match pc
    case SwapTail(node) => NextOf(l, node) == NULL
    case StoreHead(top, next) => next != NULL ==> v.queue != [] && next == v.queue[0] && NextOf(l, top) == next
    case AwaitNext(top) => v.queue != []
    case RereadNext(top) => v.queue != [] && NextOf(l, top) == v.queue[0]
    case RestoreHead(top, next) => v.queue != [] && next == v.queue[0] && NextOf(l, top) == next
    case CasHead(top) => top != NULL
    case _ => true
  }

  ghost predicate AllKnow(l: List, v: View) {
    forall t {:trigger Knows(l, v, l.threads[t])} :: 0 <= t < |l.threads| ==> Knows(l, v, l.threads[t])
  }

  /** Enqueues past the tail exchange are not counted yet; claims are still counted. */
  function Uncounted(pc: Pc): int {
    if pc.Link? || pc.PublishFirst? || pc.CountUp? then -1
    else if Claiming(pc) || pc.ClearNext? || pc.CountDown? then 1
    else 0
  }

  ghost predicate Counted(l: List, v: View) {
    l.count == (|v.queue| + Total(l.threads, Uncounted)) % WORD
  }

  ghost predicate Inv(l: List, v: View) {
    && Owned(l, v) && Conserved(l, v) && ClaimedBy(l, v) && Linked(l, v)
    && PendingLinks(l, v) && HeadToken(l, v) && AllKnow(l, v) && Counted(l, v)
  }
}
