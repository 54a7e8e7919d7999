/**
 The asynchronous mutex as a machine of interleaved atomic accesses. Any number
 of threads run `tryLock`, `lock`, `unlock`, `cancel`, `remove` and the awaiter
 code around them; the wait list is the linearizable queue of FifoListTheorems.
 */
module AsyncMutex {
  import opened Tally

  /** The next atomic access of a thread. */
  datatype Pc =
    | Idle
    // AsyncMutexAwaiter::await_ready and await_suspend
    | ReadyFlag        // m_mutex.isCancelled()
    | TryLoad          // tryLock: m_ownerCoroutine.load()
    | TryCas           // tryLock: compare_exchange_weak(null, awaiterCoroutine)
    | SuspendAdvice    // Awaiter::onSuspend, which looks at coroutine().isCancelled()
    | SuspendFlag      // mutexIsCancelled = m_mutex.isCancelled()
    | SuspendMark      // coroutine().setCancelled()
    // AsyncMutexAwaiter::await_resume
    | ResumeSelf       // coroutine().isCancelled()
    | ResumeFlag       // m_mutex.isCancelled()
    | ResumeMark       // coroutine().setCancelled()
    | ResumeFinish     // Awaiter::onResume(): returns or throws
    // lock
    | LockLoad         // ownerCoroutine = m_ownerCoroutine.load()
    | LockEnqueue      // m_waitList.enqueue(nextOwnerCoroutine)
    | LockReload       // ownerCoroutine = m_ownerCoroutine.load()
    | LockDequeue      // nextOwnerCoroutine = m_waitList.dequeue()
    | LockCas          // compare_exchange_weak(null, nextOwnerCoroutine)
    | LockSchedule     // nextOwnerCoroutine->schedule()
    // unlock
    | UnlockLoad       // ownerCoroutine = m_ownerCoroutine.load()
    | UnlockOther      // not the owner: if (isCancelled())
    | UnlockMark       // awaiterCoroutine->setCancelled()
    | UnlockFlag       // the owner: if (isCancelled())
    | OwnerMark        // ownerCoroutine->setCancelled()
    | OwnerDrain       // first drain loop: m_waitList.dequeue()
    | OwnerDrop        // nextOwnerCoroutine->setCancelled()
    | OwnerSchedule    // nextOwnerCoroutine->schedule()
    | OwnerRelease     // m_ownerCoroutine = nullptr
    | UnlockDequeue    // nextOwnerCoroutine = m_waitList.dequeue()
    | Release          // m_ownerCoroutine = nullptr
    | UnlockRetry      // nextOwnerCoroutine = m_waitList.dequeue()
    | HandOver         // m_ownerCoroutine = nextOwnerCoroutine
    // cancel, and the second drain loop of unlock
    | CancelSet        // m_cancelled = true
    | Drain            // m_waitList.dequeue()
    | DrainDrop        // coroutine->setCancelled()
    | DrainSchedule    // coroutine->schedule()
    // remove
    | RemoveCount      // initialCount = m_count
    | RemoveTake       // node = dequeue()
    | RemovePut        // enqueue(node)
    | RemoveCheck      // if (!m_ownerCoroutine)
    | RemoveDequeue    // waitingCoroutine = m_waitList.dequeue()
    | RemovedSchedule  // coroutine.schedule(), in AsyncMutexAwaiter::cancel

  /**
   The locals of a thread: `self` is the coroutine whose own awaiter or
   destructor it runs, `hand` the coroutine it took or will put in the wait
   list, `removed` the coroutine that remove found, `target` the one it looks
   for and `left` the turns it has left.
   */
  datatype Thread = Thread(pc: Pc, self: nat, hand: nat, removed: nat, target: nat, left: nat)

  const IDLE := Thread(Idle, NULL, NULL, NULL, NULL, 0)

  /** What a coroutine is doing with the mutex. */
  datatype Phase =
    | Out          // nothing
    | Trying       // inside await_ready or await_suspend
    | Asking       // passed to lock and not scheduled since
    | Ready        // about to run await_resume
    | Resuming     // inside await_resume
    | Guarding     // await_resume returned normally and the guard is alive
    | Throwing     // await_resume threw and the guard is about to be destroyed
    | Unlocking    // the guard's destructor is inside unlock

  /** `doomed` are the coroutines whose onResume throws: cancelled, or abandoned with cancellation on abandonment. */
  datatype Mutex = Mutex(
    owner: nat, wait: seq<nat>, cancelled: bool, doomed: set<nat>, phases: map<nat, Phase>, threads: seq<Thread>)

  function PhaseOf(m: Mutex, c: nat): Phase {
    if c in m.phases then m.phases[c] else Out
  }

  datatype Call =
    | Await(c: nat)          // co_await mutex, with the advice to look first
    | AwaitSuspended(c: nat) // co_await mutex, with the advice to suspend at once
    | AwaitDoomed(c: nat)    // co_await mutex, with the advice not to suspend
    | Resume(c: nat)         // the scheduled coroutine runs await_resume
    | Unlock(c: nat)         // the guard is destroyed
    | Cancel                 // AsyncMutex::cancel
    | Remove(c: nat)         // the awaiter of a cancelled coroutine is cancelled

  /**
   `weak`: a weak exchange fails spuriously, or the advice is to go on to suspend;
   `turns`: the bound that remove computes from a racing count. A coroutine is
   doomed from outside at any time.
   */
  datatype Move = Begin(thread: nat, call: Call) | Step(thread: nat, weak: bool, turns: nat) | Doom(c: nat)

  predicate Enabled(m: Mutex, mv: Move) {
    match mv
    case Doom(_) => true
    case Step(t, _, _) => t < |m.threads| && !m.threads[t].pc.Idle?
    case Begin(t, call) =>
      && t < |m.threads| && m.threads[t] == IDLE
      && match call
         case Await(c) => c != NULL && PhaseOf(m, c).Out?
         case AwaitSuspended(c) => c != NULL && PhaseOf(m, c).Out?
         case AwaitDoomed(c) => c != NULL && PhaseOf(m, c).Out? && c in m.doomed
         case Resume(c) => PhaseOf(m, c).Ready?
         case Unlock(c) => PhaseOf(m, c).Guarding? || PhaseOf(m, c).Throwing?
         case Cancel => true
         case Remove(c) => c in m.doomed
  }

  function With(m: Mutex, t: nat, th: Thread): Mutex
    requires t < |m.threads|
  {
    m.(threads := m.threads[t := th])
  }

  function Goto(m: Mutex, t: nat, pc: Pc): Mutex
    requires t < |m.threads|
  {
    With(m, t, m.threads[t].(pc := pc))
  }

  function Become(m: Mutex, c: nat, phase: Phase): Mutex {
    m.(phases := m.phases[c := phase])
  }

  /** The front of the wait list into the thread's hand. */
  function TakeFront(m: Mutex, t: nat, pc: Pc): Mutex
    requires t < |m.threads| && m.wait != []
  {
    With(m.(wait := m.wait[1..]), t, m.threads[t].(pc := pc, hand := m.wait[0]))
  }

  /** The coroutine in hand to the end of the wait list. */
  function PutBack(m: Mutex, t: nat, pc: Pc): Mutex
    requires t < |m.threads|
  {
    With(m.(wait := m.wait + [m.threads[t].hand]), t, m.threads[t].(pc := pc, hand := NULL))
  }

  /** The coroutine in hand to its scheduler. */
  function ScheduleHand(m: Mutex, t: nat, pc: Pc): Mutex
    requires t < |m.threads|
  {
    With(Become(m, m.threads[t].hand, Ready), t, m.threads[t].(pc := pc, hand := NULL))
  }

  /** The coroutine that the thread ran is done with it. */
  function Leave(m: Mutex, t: nat, phase: Phase, pc: Pc): Mutex
    requires t < |m.threads|
  {
    With(Become(m, m.threads[t].self, phase), t, m.threads[t].(pc := pc, self := NULL))
  }

  /** Where lock and remove return to: the awaiter still has to schedule what remove took out. */
  function Back(th: Thread): Pc {
    if th.removed == NULL then Idle else RemovedSchedule
  }

  function Start(m: Mutex, t: nat, call: Call): Mutex
    requires t < |m.threads|
  {
    match call
    case Await(c) => With(Become(m, c, Trying), t, IDLE.(pc := ReadyFlag, self := c))
    case AwaitSuspended(c) => With(Become(m, c, Trying), t, IDLE.(pc := SuspendAdvice, self := c))
    case AwaitDoomed(c) => With(Become(m, c, Ready), t, IDLE)
    case Resume(c) => With(Become(m, c, Resuming), t, IDLE.(pc := ResumeSelf, self := c))
    case Unlock(c) => With(Become(m, c, Unlocking), t, IDLE.(pc := UnlockLoad, self := c))
    case Cancel => With(m, t, IDLE.(pc := CancelSet))
    case Remove(c) => With(m, t, IDLE.(pc := RemoveCount, target := c))
  }

  predicate AwaiterPc(pc: Pc) {
    pc.ReadyFlag? || pc.TryLoad? || pc.TryCas? || pc.SuspendAdvice? || pc.SuspendFlag? || pc.SuspendMark?
    || pc.ResumeSelf? || pc.ResumeFlag? || pc.ResumeMark? || pc.ResumeFinish?
  }

  function AwaiterStep(m: Mutex, t: nat, weak: bool): Mutex
    requires t < |m.threads|
  {
    var c := m.threads[t].self;
    match m.threads[t].pc
    case ReadyFlag => if m.cancelled then Goto(Become(m, c, Resuming), t, ResumeSelf) else Goto(m, t, TryLoad)
    case TryLoad => Goto(m, t, if m.owner != NULL then SuspendAdvice else TryCas)
    case TryCas =>
      if m.owner == NULL && !weak then Goto(Become(m.(owner := c), c, Resuming), t, ResumeSelf)
      else Goto(m, t, if m.owner != NULL then SuspendAdvice else TryCas)
    case SuspendAdvice => if c in m.doomed && !weak then Leave(m, t, Ready, Idle) else Goto(m, t, SuspendFlag)
    case SuspendFlag =>
      if m.cancelled then Goto(m, t, SuspendMark)
      else With(Become(m, c, Asking), t, m.threads[t].(pc := LockLoad, self := NULL, hand := c))
    case SuspendMark => Leave(m.(doomed := m.doomed + {c}), t, Ready, Idle)
    case ResumeSelf => Goto(m, t, if c in m.doomed then ResumeFinish else ResumeFlag)
    case ResumeFlag => Goto(m, t, if m.cancelled then ResumeMark else ResumeFinish)
    case ResumeMark => Goto(m.(doomed := m.doomed + {c}), t, ResumeFinish)
    case ResumeFinish => Leave(m, t, if c in m.doomed then Throwing else Guarding, Idle)
    case _ => m
  }

  predicate LockPc(pc: Pc) {
    pc.LockLoad? || pc.LockEnqueue? || pc.LockReload? || pc.LockDequeue? || pc.LockCas? || pc.LockSchedule?
  }

  function LockStep(m: Mutex, t: nat, weak: bool): Mutex
    requires t < |m.threads|
  {
    match m.threads[t].pc
    case LockLoad => Goto(m, t, if m.owner != NULL then LockEnqueue else LockCas)
    case LockEnqueue => PutBack(m, t, LockReload)
    case LockReload => Goto(m, t, if m.owner != NULL then Back(m.threads[t]) else LockDequeue)
    case LockDequeue => if m.wait == [] then Goto(m, t, Back(m.threads[t])) else TakeFront(m, t, LockCas)
    case LockCas =>
      if m.owner == NULL && !weak then Goto(m.(owner := m.threads[t].hand), t, LockSchedule)
      else Goto(m, t, if m.owner != NULL then LockEnqueue else LockCas)
    case LockSchedule => ScheduleHand(m, t, Back(m.threads[t]))
    case _ => m
  }

  predicate UnlockPc(pc: Pc) {
    pc.UnlockLoad? || pc.UnlockOther? || pc.UnlockMark? || pc.UnlockFlag? || pc.OwnerMark? || pc.OwnerDrain?
    || pc.OwnerDrop? || pc.OwnerSchedule? || pc.OwnerRelease? || pc.UnlockDequeue? || pc.Release? || pc.UnlockRetry?
         || pc.HandOver?
  }

  /**
   A coroutine's part in unlock is over, phase Out, once it has given the
   ownership away or found that it has none.
   */
  function UnlockStep(m: Mutex, t: nat): Mutex
    requires t < |m.threads|
  {
    var c, x := m.threads[t].self, m.threads[t].hand;
    match m.threads[t].pc
    case UnlockLoad => Goto(m, t, if m.owner != c then UnlockOther else UnlockFlag)
    case UnlockOther => if m.cancelled then Goto(m, t, UnlockMark) else Leave(m, t, Out, Idle)
    case UnlockMark => Leave(m.(doomed := m.doomed + {c}), t, Out, Idle)
    case UnlockFlag => Goto(m, t, if m.cancelled then OwnerMark else UnlockDequeue)
    case OwnerMark => Goto(m.(doomed := m.doomed + {c}), t, OwnerDrain)
    case OwnerDrain => if m.wait == [] then Goto(m, t, OwnerRelease) else TakeFront(m, t, OwnerDrop)
    case OwnerDrop => Goto(m.(doomed := m.doomed + {x}), t, OwnerSchedule)
    case OwnerSchedule => ScheduleHand(m, t, OwnerDrain)
    case OwnerRelease => Leave(m.(owner := NULL), t, Out, Drain)
    case UnlockDequeue => if m.wait == [] then Goto(m, t, Release) else TakeFront(m, t, HandOver)
    case Release => Leave(m.(owner := NULL), t, Out, UnlockRetry)
    case UnlockRetry => if m.wait == [] then Goto(m, t, Idle) else TakeFront(m, t, LockLoad)
    case HandOver => Leave(m.(owner := x), t, Out, LockSchedule)
    case _ => m
  }

  function CancelStep(m: Mutex, t: nat, turns: nat): Mutex
    requires t < |m.threads|
  {
    var th := m.threads[t];
    match th.pc
    case CancelSet => Goto(m.(cancelled := true), t, Drain)
    case Drain => if m.wait == [] then Goto(m, t, Idle) else TakeFront(m, t, DrainDrop)
    case DrainDrop => Goto(m.(doomed := m.doomed + {th.hand}), t, DrainSchedule)
    case DrainSchedule => ScheduleHand(m, t, Drain)
    case RemoveCount => With(m, t, th.(pc := RemoveTake, left := turns))
    case RemoveTake =>
      if th.left == 0 || m.wait == [] then With(m, t, IDLE.(pc := RemoveCheck))
      else if m.wait[0] == th.target then
        With(m.(wait := m.wait[1..]), t, IDLE.(pc := RemoveCheck, removed := th.target))
      else With(m.(wait := m.wait[1..]), t, th.(pc := RemovePut, hand := m.wait[0], left := th.left - 1))
    case RemovePut => PutBack(m, t, RemoveTake)
    case RemoveCheck => Goto(m, t, if m.owner != NULL then Back(th) else RemoveDequeue)
    case RemoveDequeue => if m.wait == [] then Goto(m, t, Back(th)) else TakeFront(m, t, LockLoad)
    case RemovedSchedule => With(Become(m, th.removed, Ready), t, IDLE)
    case _ => m
  }

  /** The next atomic access of thread `t`. */
  function Access(m: Mutex, t: nat, weak: bool, turns: nat): Mutex
    requires t < |m.threads|
  {
    var pc := m.threads[t].pc;
    if AwaiterPc(pc) then AwaiterStep(m, t, weak)
    else if LockPc(pc) then LockStep(m, t, weak)
    else if UnlockPc(pc) then UnlockStep(m, t)
    else CancelStep(m, t, turns)
  }

  /** A move that is not enabled changes nothing. */
  function Next(m: Mutex, mv: Move): Mutex {
    if !Enabled(m, mv) then m else
    match mv
    case Doom(c) => m.(doomed := m.doomed + {c})
    case Begin(t, call) => Start(m, t, call)
    case Step(t, weak, turns) => Access(m, t, weak, turns)
  }

  ghost predicate Initial(m: Mutex) {
    && m.owner == NULL && m.wait == [] && !m.cancelled && m.phases == map[]
    && forall t :: 0 <= t < |m.threads| ==> m.threads[t] == IDLE
  }

  // ---------------------------------------------------------------------
  // The invariant
  // ---------------------------------------------------------------------

  /** The coroutines that a thread holds on their way from the wait list to the scheduler or back. */
  function Hand(th: Thread): multiset<nat> {
    Bag(th.hand) + Bag(th.removed)
  }

  function Runs(th: Thread): multiset<nat> {
    Bag(th.self)
  }

  /** Accesses made on behalf of the coroutine whose code runs. */
  predicate Serves(pc: Pc) {
    AwaiterPc(pc) || (UnlockPc(pc) && !pc.UnlockRetry?)
  }

  /** Accesses made with a coroutine in hand. */
  predicate Carries(pc: Pc) {
    pc.LockLoad? || pc.LockEnqueue? || pc.LockCas? || pc.LockSchedule? || pc.OwnerDrop? || pc.OwnerSchedule?
    || pc.HandOver? || pc.DrainDrop? || pc.DrainSchedule? || pc.RemovePut?
  }

  /** Accesses made on behalf of the coroutine that owns the mutex. */
  predicate OwnerPc(pc: Pc) {
    pc.UnlockFlag? || pc.OwnerMark? || pc.OwnerDrain? || pc.OwnerDrop? || pc.OwnerSchedule? || pc.OwnerRelease?
    || pc.UnlockDequeue? || pc.Release? || pc.HandOver?
  }

  function SelfPhase(pc: Pc): Phase {
    if UnlockPc(pc) then Unlocking
    else if pc.ResumeSelf? || pc.ResumeFlag? || pc.ResumeMark? || pc.ResumeFinish? then Resuming
    else Trying
  }

  /** Which locals are in use, and what the thread knows of the owner and of the coroutines it holds. */
  ghost predicate ThreadKnows(m: Mutex, th: Thread) {
    && (Serves(th.pc) <==> th.self != NULL)
    && (Carries(th.pc) <==> th.hand != NULL)
    && (th.self != NULL ==> PhaseOf(m, th.self) == SelfPhase(th.pc))
    && (OwnerPc(th.pc) ==> m.owner == th.self)
    && (th.pc.UnlockOther? || th.pc.UnlockMark? ==> m.owner != th.self)
    && (th.pc.ResumeFinish? ==> m.owner == th.self || th.self in m.doomed)
    && (th.pc.LockSchedule? ==> m.owner == th.hand)
    && (th.pc.OwnerSchedule? || th.pc.DrainSchedule? ==> th.hand in m.doomed)
    && (th.pc.RemoveCount? || th.pc.RemoveTake? || th.pc.RemovePut? ==> th.target in m.doomed)
    && (th.removed != NULL ==>
          th.removed in m.doomed
              && (LockPc(th.pc) || th.pc.RemoveCheck? || th.pc.RemoveDequeue? || th.pc.RemovedSchedule?))
    && (th.pc.RemovedSchedule? ==> th.removed != NULL)
    && (th.pc.Idle? ==> th.removed == NULL)
  }

  ghost predicate AllKnow(m: Mutex) {
    forall t {:trigger ThreadKnows(m, m.threads[t])} :: 0 <= t < |m.threads| ==> ThreadKnows(m, m.threads[t])
  }

  /** How many times a coroutine stands in the wait list or lies in a hand. */
  ghost function Copies(m: Mutex, c: nat): nat {
    multiset(m.wait)[c] + Gather(m.threads, Hand)[c]
  }

  /** How many threads run a coroutine's own code. */
  ghost function Runners(m: Mutex, c: nat): nat {
    Gather(m.threads, Runs)[c]
  }

  predicate Inside(p: Phase) {
    p.Trying? || p.Resuming? || p.Unlocking?
  }

  /**
   A coroutine passed to lock is in the wait list or in one thread's hand, once,
   until it is scheduled; no other is.
   */
  ghost predicate Located(m: Mutex) {
    forall c: nat {:trigger Copies(m, c)} :: Copies(m, c) == if PhaseOf(m, c).Asking? then 1 else 0
  }

  /** A coroutine inside its own awaiter or destructor is run by exactly one thread. */
  ghost predicate RunOnce(m: Mutex) {
    && (forall c: nat {:trigger Runners(m, c)} :: Runners(m, c) == if Inside(PhaseOf(m, c)) then 1 else 0)
    && PhaseOf(m, NULL).Out?
  }

  ghost predicate Scheduling(threads: seq<Thread>, c: nat) {
    exists t :: 0 <= t < |threads| && threads[t].pc.LockSchedule? && threads[t].hand == c
  }

  /**
   What the phase of a coroutine says of its ownership: who holds a guard
   normally owns the mutex, who is resumed without owning it will throw, and
   who has not been scheduled by lock owns nothing.
   */
  ghost predicate Fits(m: Mutex, c: nat) {
    match PhaseOf(m, c)
    case Out => m.owner != c
    case Trying => m.owner != c
    case Asking => m.owner == c ==> Scheduling(m.threads, c)
    case Guarding => m.owner == c
    case Unlocking => true
    case Throwing => c in m.doomed
    case _ => m.owner == c || c in m.doomed || m.cancelled
  }

  ghost predicate Ownership(m: Mutex) {
    forall c: nat {:trigger Fits(m, c)} :: c != NULL ==> Fits(m, c)
  }

  /** Threads that will still look at the owner and then at the wait list. */
  predicate Repairs(pc: Pc) {
    pc.LockLoad? || pc.LockEnqueue? || pc.LockReload? || pc.LockDequeue? || pc.LockCas?
    || pc.UnlockRetry? || pc.CancelSet? || pc.Drain? || pc.DrainDrop? || pc.DrainSchedule?
    || pc.RemoveCount? || pc.RemoveTake? || pc.RemovePut? || pc.RemoveCheck? || pc.RemoveDequeue?
  }

  ghost predicate Repairing(threads: seq<Thread>) {
    exists t :: 0 <= t < |threads| && Repairs(threads[t].pc)
  }

  ghost predicate NotStranded(m: Mutex) {
    m.owner == NULL && m.wait != [] ==> Repairing(m.threads)
  }

  ghost predicate Inv(m: Mutex) {
    Located(m) && RunOnce(m) && AllKnow(m) && Ownership(m) && NotStranded(m)
  }
}
