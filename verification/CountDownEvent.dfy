/**
 The asynchronous count-down event as a machine of interleaved atomic accesses:
 any number of threads run `countDown`, `countUp`, `enqueue`, `remove` and the
 `resumeWaiting` loop they share.
 */
module CountDownEvent {
  import opened Tally

  /** The next atomic access of a thread. */
  datatype Pc =
    | Idle
    | DownLoad          // countDown: prevCount = m_count
    | DownCas           // countDown: compare_exchange_weak(prevCount, prevCount - 1)
    | UpLoad            // countUp: prevCount = m_count
    | UpCas             // countUp: compare_exchange_weak(prevCount, prevCount + 1)
    | WakeDequeue       // resumeWaiting: m_waitQueue.dequeue()
    | WakeCheck         // resumeWaiting: the first isZero()
    | WakeEnqueue       // resumeWaiting: m_waitQueue.enqueue(coroutine)
    | WakeSchedule      // resumeWaiting: coroutine->schedule()
    | WakeAgain         // resumeWaiting: the second isZero()
    | EnlistZero        // enqueue: the first isZero()
    | EnlistPut         // enqueue: m_waitQueue.enqueue(&coroutine)
    | EnlistCheck       // enqueue: the second isZero()
    | RemoveZero        // remove: the first isZero()
    | RemoveCount       // remove: initialCount, in the list's remove
    | RemoveTake        // remove: dequeue(), in the list's remove
    | RemovePut         // remove: enqueue(node), in the list's remove
    | RemoveCheck       // remove: the second isZero()
    | RemovedSchedule   // coroutine.schedule(), in the awaiter's cancel

  /**
   The locals of a thread: `prev` is the count it read, `hand` the coroutine it
   is about to put in the list or has taken from it, `removed` the coroutine
   that remove found, `target` the one it looks for, `left` its turns.
   */
  datatype Thread = Thread(pc: Pc, prev: int, hand: nat, removed: nat, target: nat, left: nat)

  const IDLE := Thread(Idle, 0, NULL, NULL, NULL, 0)

  /** `custody` are the coroutines passed to enqueue that it has not refused and nobody has scheduled since. */
  datatype Event = Event(count: int, max: int, wait: seq<nat>, custody: set<nat>, threads: seq<Thread>)

  datatype Call = CountDown | CountUp | Enqueue(c: nat) | Remove(c: nat)

  /** `weak`: a weak exchange fails spuriously; `turns`: the bound that remove computes from a racing count. */
  datatype Move = Begin(thread: nat, call: Call) | Step(thread: nat, weak: bool, turns: nat)

  predicate Enabled(e: Event, m: Move) {
    && m.thread < |e.threads|
    && match m
       case Step(t, _, _) => !e.threads[t].pc.Idle?
       case Begin(t, Enqueue(c)) => e.threads[t] == IDLE && c != NULL && c !in e.custody
       case Begin(t, _) => e.threads[t] == IDLE
  }

  function With(e: Event, t: nat, th: Thread): Event
    requires t < |e.threads|
  {
    e.(threads := e.threads[t := th])
  }

  function Goto(e: Event, t: nat, pc: Pc): Event
    requires t < |e.threads|
  {
    With(e, t, e.threads[t].(pc := pc))
  }

  function Start(e: Event, t: nat, call: Call): Event
    requires t < |e.threads|
  {
    match call
    case CountDown => With(e, t, IDLE.(pc := DownLoad))
    case CountUp => With(e, t, IDLE.(pc := UpLoad))
    case Enqueue(c) => With(e.(custody := e.custody + {c}), t, IDLE.(pc := EnlistZero, hand := c))
    case Remove(c) => With(e, t, IDLE.(pc := RemoveZero, target := c))
  }

  /** Where remove and the loop inside it return to. */
  function Back(th: Thread): Pc {
    if th.removed == NULL then Idle else RemovedSchedule
  }

  function Access(e: Event, t: nat, weak: bool, turns: nat): Event
    requires t < |e.threads|
  {
    var th := e.threads[t];
    match th.pc
    case Idle => e
    case DownLoad => With(e, t, if e.count == 0 then IDLE else th.(pc := DownCas, prev := e.count))
    case DownCas =>
      if e.count == th.prev && !weak then
        With(e.(count := e.count - 1), t, if th.prev == 1 then IDLE.(pc := WakeDequeue) else IDLE)
      else With(e, t, if e.count == 0 then IDLE else th.(prev := e.count))
    case UpLoad => With(e, t, if e.count == e.max then IDLE else th.(pc := UpCas, prev := e.count))
    case UpCas =>
      if e.count == th.prev && !weak then With(e.(count := e.count + 1), t, IDLE)
      else With(e, t, if e.count == e.max then IDLE else th.(prev := e.count))
    case WakeDequeue =>
      if e.wait == [] then Goto(e, t, Back(th))
      else With(e.(wait := e.wait[1..]), t, th.(pc := WakeCheck, hand := e.wait[0]))
    case WakeCheck => Goto(e, t, if e.count != 0 then WakeEnqueue else WakeSchedule)
    case WakeEnqueue => With(e.(wait := e.wait + [th.hand]), t, th.(pc := WakeAgain, hand := NULL))
    case WakeSchedule => With(e.(custody := e.custody - {th.hand}), t, th.(pc := WakeAgain, hand := NULL))
    case WakeAgain => Goto(e, t, if e.count != 0 then Back(th) else WakeDequeue)
    case EnlistZero =>
      if e.count == 0 then With(e.(custody := e.custody - {th.hand}), t, IDLE) else Goto(e, t, EnlistPut)
    case EnlistPut => With(e.(wait := e.wait + [th.hand]), t, th.(pc := EnlistCheck, hand := NULL))
    case EnlistCheck => Goto(e, t, if e.count == 0 then WakeDequeue else Idle)
    case RemoveZero => Goto(e, t, if e.count == 0 then Idle else RemoveCount)
    case RemoveCount => With(e, t, th.(pc := RemoveTake, left := turns))
    case RemoveTake =>
      if th.left == 0 || e.wait == [] then With(e, t, IDLE.(pc := RemoveCheck))
      else if e.wait[0] == th.target
          then With(e.(wait := e.wait[1..]), t, IDLE.(pc := RemoveCheck, removed := th.target))
      else With(e.(wait := e.wait[1..]), t, th.(pc := RemovePut, hand := e.wait[0], left := th.left - 1))
    case RemovePut => With(e.(wait := e.wait + [th.hand]), t, th.(pc := RemoveTake, hand := NULL))
    case RemoveCheck => Goto(e, t, if e.count == 0 then WakeDequeue else Back(th))
    case RemovedSchedule => With(e.(custody := e.custody - {th.removed}), t, IDLE)
  }

  /** A move that is not enabled changes nothing. A call that ends leaves its thread idle. */
  function Next(e: Event, m: Move): Event {
    if !Enabled(e, m) then e else
    match m
    case Begin(t, call) => Start(e, t, call)
    case Step(t, weak, turns) => Settle(Access(e, t, weak, turns), t)
  }

  /** A thread that has returned forgets its locals. */
  function Settle(e: Event, t: nat): Event {
    if t < |e.threads| && e.threads[t].pc.Idle? then With(e, t, IDLE) else e
  }

  ghost predicate Initial(e: Event) {
    && 0 <= e.count <= e.max && e.wait == [] && e.custody == {}
    && forall t :: 0 <= t < |e.threads| ==> e.threads[t] == IDLE
  }

  // ---------------------------------------------------------------------
  // The invariant
  // ---------------------------------------------------------------------

  function Hand(th: Thread): multiset<nat> {
    Bag(th.hand) + Bag(th.removed)
  }

  /** Accesses made with a coroutine in hand. */
  predicate Carries(pc: Pc) {
    pc.WakeCheck? || pc.WakeEnqueue? || pc.WakeSchedule? || pc.EnlistZero? || pc.EnlistPut? || pc.RemovePut?
  }

  /** Threads that will look at the count again and at the wait queue if it is zero. */
  predicate Repairs(pc: Pc) {
    pc.WakeDequeue? || pc.WakeCheck? || pc.WakeEnqueue? || pc.WakeSchedule? || pc.WakeAgain? || pc.EnlistCheck?
    || pc.RemoveTake? || pc.RemovePut? || pc.RemoveCheck?
  }

  ghost predicate ThreadKnows(e: Event, th: Thread) {
    && (Carries(th.pc) <==> th.hand != NULL)
    && (th.pc.DownCas? ==> 0 < th.prev)
    && (th.pc.UpCas? ==> th.prev < e.max)
    && (th.removed != NULL ==>
          th.pc.WakeDequeue? || th.pc.WakeCheck? || th.pc.WakeEnqueue? || th.pc.WakeSchedule? || th.pc.WakeAgain?
          || th.pc.RemoveCheck? || th.pc.RemovedSchedule?)
    && (th.pc.RemovedSchedule? ==> th.removed != NULL)
  }

  ghost predicate AllKnow(e: Event) {
    forall t {:trigger ThreadKnows(e, e.threads[t])} :: 0 <= t < |e.threads| ==> ThreadKnows(e, e.threads[t])
  }

  /** How many times a coroutine stands in the wait queue or lies in a hand. */
  ghost function Copies(e: Event, c: nat): nat {
    multiset(e.wait)[c] + Gather(e.threads, Hand)[c]
  }

  ghost predicate Located(e: Event) {
    && NULL !in e.custody
    && forall c: nat {:trigger Copies(e, c)} :: Copies(e, c) == if c in e.custody then 1 else 0
  }

  ghost predicate Repairing(threads: seq<Thread>) {
    exists t :: 0 <= t < |threads| && Repairs(threads[t].pc)
  }

  ghost predicate NotStranded(e: Event) {
    e.count == 0 && e.wait != [] ==> Repairing(e.threads)
  }

  ghost predicate Inv(e: Event) {
    0 <= e.count <= e.max && Located(e) && AllKnow(e) && NotStranded(e)
  }
}
