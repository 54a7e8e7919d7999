/**
 Sleeping and waking in the thread pool as a machine of interleaved atomic
 accesses: any number of workers, and any number of other threads that schedule
 onto the pool. Wake-up events are used as flags, and no shutdown is requested.
 */
module ThreadPool {
  import opened Tally

  const CHECKS: nat := 32

  /** The next access of wakeOneThread or processPendingWakeUps. */
  datatype CallPc =
    | Return            // in neither
    | Decide            // wakeOneThread(): doImmediateWakeUp
    | LoopCount         // wakeOneThread(bool): m_mayBeSleepingThreadCount == 0
    | LoopFlag          // (try)wakeUpIfSleeping: m_isSleeping
    | LoopSet           // (try)wakeUpIfSleeping: m_wakeUpEvent.set() or trySet()
    | Missed            // wakeOneThread(): m_mayBeSleepingThreadCount == 0
    | OfferCount        // wakeOneThread(): m_mayBeSleepingThreadCount == m_threadCount
    | OfferPending      // wakeOneThread(): m_pendingWakeUpRequestCount > 0
    | PendLoad          // wakeOneThread(): pendingWakeUpRequestCount = m_pendingWakeUpRequestCount
    | PendTest          // wakeOneThread(): pendingWakeUpRequestCount >= m_mayBeSleepingThreadCount
    | PendCas           // wakeOneThread(): compare_exchange_weak(pendingWakeUpRequestCount, + 1)
    | ProcessAssert     // processPendingWakeUps: the first assertions
    | ProcessLoad       // processPendingWakeUps: pendingWakeUpRequestCount = m_pendingWakeUpRequestCount
    | ProcessCas        // processPendingWakeUps: compare_exchange_weak(pendingWakeUpRequestCount, - 1)

  /** `i` is the loop variable, `seen` the pending requests it read, `immediate` the argument of wakeOneThread(bool). */
  datatype Call = Call(pc: CallPc, i: nat, immediate: bool, seen: int)

  const RETURNED := Call(Return, 0, false, 0)

  /** The next access of runWorkerThread. */
  datatype WorkerPc =
    | Work              // tryGetWork()
    | Busy              // inside resume(coroutine)
    | Scan              // one of the checks before sleeping: tryGetRemote()
    | LastScan          // tryGetRemote() after them
    | PendingTest       // m_pendingWakeUpRequestCount != 0
    | SleepTest         // localState.isSleeping()
    | FlagUp            // setSleeping(true): m_isSleeping = true
    | CountUp           // setSleeping(true): m_mayBeSleepingThreadCount++
    | SleepAssert       // assert(m_sleepingThreadCount < m_threadCount)
    | SleepUp           // m_sleepingThreadCount++
    | Wait              // m_wakeUpEvent.wait()
    | SleepDown         // m_sleepingThreadCount--
    | WakeAssert        // assert(m_sleepingThreadCount < m_threadCount)
    | FlagDown          // setSleeping(false): m_isSleeping = false
    | CountDown         // setSleeping(false): m_mayBeSleepingThreadCount--
    | ZeroTest          // setSleeping(false): m_mayBeSleepingThreadCount == 0
    | Reset             // setSleeping(false): m_pendingWakeUpRequestCount = 0
    | Normal            // normal_processing: localState.isSleeping()
    | Resume            // normal_processing: if (coroutine)

  /**
   `left` checks remain before sleeping; `hand` is the coroutine it has found and
   not yet left again; `woken`: it comes from waiting.
   */
  datatype Worker = Worker(
    pc: WorkerPc, call: Call, asleep: bool, event: bool, left: nat, hand: Option<nat>, woken: bool)

  /** A worker that begins to look for work. */
  const FRESH := Worker(Work, RETURNED, false, false, 0, None, false)

  /** Where a call of wakeOneThread comes from. */
  datatype Kind =
    | Own               // a worker of this pool
    | Unpooled          // a thread of no pool
    | OtherGlobal       // a worker of a pool without local work
    | OtherLocal        // a worker of another pool with local work

  datatype Caller = Caller(kind: Kind, call: Call)

  /** `local` are the workers' own queues; `noLocal`: the pool keeps all its work in the global queue. */
  datatype Pool = Pool(
    queue: seq<nat>, local: seq<seq<nat>>, mayBe: int, sleeping: int, pending: int, noLocal: bool,
    workers: seq<Worker>, callers: seq<Caller>, failed: bool)

  /** What a worker does between two accesses of its coroutine. */
  datatype Action = Schedule(coroutine: nat) | Process | Finish

  /**
   `victim`: the worker whose own queue is tried; `luck`: the mutex is free, a
   weak exchange does not fail.
   */
  datatype Move =
    | WorkerStep(w: nat, victim: Option<nat>)
    | WorkerAct(w: nat, action: Action)
    | WorkerCall(w: nat, luck: bool)
    | Enqueue(o: nat, coroutine: nat)
    | CallerStep(o: nat, luck: bool)

  predicate Enabled(p: Pool, m: Move) {
    && !p.failed
    && match m
       case WorkerStep(w, _) =>
         w < |p.workers| && p.workers[w].call.pc.Return? && !p.workers[w].pc.Busy?
         && (p.workers[w].pc.Wait? ==> p.workers[w].event)
       case WorkerAct(w, _) => w < |p.workers| && p.workers[w].call.pc.Return? && p.workers[w].pc.Busy?
       case WorkerCall(w, _) => w < |p.workers| && !p.workers[w].call.pc.Return?
       case Enqueue(o, _) => o < |p.callers| && p.callers[o].call.pc.Return?
       case CallerStep(o, _) => o < |p.callers| && !p.callers[o].call.pc.Return?
  }

  // ---------------------------------------------------------------------
  // wakeOneThread and processPendingWakeUps
  // ---------------------------------------------------------------------

  function Size(p: Pool): nat {
    |p.workers|
  }

  /** The next turn of the loop over the workers, or what follows a loop that woke nobody. */
  function NextTurn(p: Pool, c: Call): Call {
    if c.i + 1 < Size(p) then c.(pc := LoopCount, i := c.i + 1)
    else if c.immediate then RETURNED
    else Call(Missed, 0, false, 0)
  }

  function StartLoop(p: Pool, immediate: bool): Call {
    if Size(p) == 0 then RETURNED else Call(LoopCount, 0, immediate, 0)
  }

  /** What the caller goes on to, or None when an assertion fails. */
  function CallNext(p: Pool, kind: Kind, c: Call, luck: bool): Option<Call> {
    match c.pc
    case Return => Some(c)
    case Decide => Some(StartLoop(p, Immediate(p, kind)))
    case LoopCount => Some(if p.mayBe == 0 then RETURNED else c.(pc := LoopFlag))
    case LoopFlag => Some(if c.i < Size(p) && p.workers[c.i].asleep then c.(pc := LoopSet) else NextTurn(p, c))
    case LoopSet => Some(if c.immediate || luck then RETURNED else NextTurn(p, c))
    case Missed => Some(if p.mayBe == 0 then RETURNED
      else c.(pc := if kind.Own? || kind.Unpooled? then PendLoad else OfferCount))
    case OfferCount => Some(c.(pc := if p.mayBe == Size(p) then OfferPending else PendLoad))
    case OfferPending => Some(if p.pending > 0 then StartLoop(p, true) else c.(pc := PendLoad))
    case PendLoad => Some(c.(pc := PendTest, seen := p.pending))
    case PendTest =>
      if c.seen < 0 || c.seen > Size(p) then None
      else Some(if c.seen >= p.mayBe then RETURNED else c.(pc := PendCas))
    case PendCas => Some(if p.pending == c.seen && luck then RETURNED else c.(pc := PendTest, seen := p.pending))
    case ProcessAssert => if p.pending < 0 || p.pending > Size(p) then None else Some(c.(pc := ProcessLoad))
    case ProcessLoad => HeadOfLoop(c.(seen := p.pending))
    case ProcessCas => if p.pending == c.seen && luck then Some(Call(Decide, 0, false, 0))
      else HeadOfLoop(c.(seen := p.pending))
  }

  /** The test at the head of the loop in processPendingWakeUps. */
  function HeadOfLoop(c: Call): Option<Call> {
    if c.seen < 0 then None else Some(if c.seen == 0 then RETURNED else c.(pc := ProcessCas))
  }

  function Immediate(p: Pool, kind: Kind): bool {
    match kind
    case Own => p.noLocal
    case Unpooled => true
    case OtherGlobal => true
    case OtherLocal => p.mayBe == Size(p)
  }

  /** What the access does to the pool. */
  function CallEffect(p: Pool, c: Call, luck: bool): Pool {
    match c.pc
    case LoopSet => if c.i < Size(p) && (c.immediate || luck) then SetEvent(p, c.i) else p
    case PendCas => if p.pending == c.seen && luck then p.(pending := p.pending + 1) else p
    case ProcessCas => if p.pending == c.seen && luck then p.(pending := p.pending - 1) else p
    case _ => p
  }

  function SetEvent(p: Pool, i: nat): Pool
    requires i < Size(p)
  {
    p.(workers := p.workers[i := p.workers[i].(event := true)])
  }

  function CallStep(p: Pool, o: nat, luck: bool): Pool
    requires o < |p.callers|
  {
    match CallNext(p, p.callers[o].kind, p.callers[o].call, luck)
    case None => p.(failed := true)
    case Some(c) =>
      CallEffect(p, p.callers[o].call, luck).(callers := p.callers[o := p.callers[o].(call := c)])
  }

  function OwnCallStep(p: Pool, w: nat, luck: bool): Pool
    requires w < Size(p)
  {
    match CallNext(p, Own, p.workers[w].call, luck)
    case None => p.(failed := true)
    case Some(c) =>
      var p' := CallEffect(p, p.workers[w].call, luck);
      Put(p', w, p'.workers[w].(call := c))
  }

  // ---------------------------------------------------------------------
  // The worker
  // ---------------------------------------------------------------------

  function Put(p: Pool, w: nat, worker: Worker): Pool
    requires w < Size(p)
  {
    p.(workers := p.workers[w := worker])
  }

  /** A coroutine that was found, and the pool without it. */
  datatype Find = Find(coroutine: nat, pool: Pool)

  predicate HasLocal(p: Pool, j: nat) {
    j < |p.local| && p.local[j] != []
  }

  function FromQueue(p: Pool): Find
    requires p.queue != []
  {
    Find(p.queue[0], p.(queue := p.queue[1..]))
  }

  function FromLocal(p: Pool, j: nat): Find
    requires HasLocal(p, j)
  {
    Find(p.local[j][0], p.(local := p.local[j := p.local[j][1..]]))
  }

  /** tryGetRemote: the global queue first, then the workers' queues. */
  function TryRemote(p: Pool, victim: Option<nat>): Option<Find> {
    if p.queue != [] then Some(FromQueue(p))
    else if !p.noLocal && victim.Some? && HasLocal(p, victim.value) then Some(FromLocal(p, victim.value))
    else None
  }

  /** tryGetWork: the worker's own queue, before the others or after them. */
  function TryWork(p: Pool, w: nat, victim: Option<nat>): Option<Find> {
    if HasLocal(p, w) && (victim == Some(w) || TryRemote(p, victim).None?) then Some(FromLocal(p, w))
    else TryRemote(p, victim)
  }

  /** One of the looks before sleeping. */
  function Look(p: Pool, w: nat, victim: Option<nat>, empty: Worker): Pool
    requires w < Size(p)
  {
    match TryRemote(p, victim)
    case Some(f) => Put(f.pool, w, p.workers[w].(pc := Normal, hand := Some(f.coroutine)))
    case None => Put(p, w, empty)
  }

  function Access(p: Pool, w: nat, victim: Option<nat>): Pool
    requires w < Size(p)
  {
    var k := p.workers[w];
    match k.pc
    case Work => (
      match TryWork(p, w, victim)
      case Some(f) =>
        Put(f.pool, w, k.(pc := Resume, hand := Some(f.coroutine), call := RETURNED.(pc := ProcessAssert)))
      case None => Put(p, w, k.(pc := Scan, left := CHECKS)))
    case Busy => p
    case Scan => Look(p, w, victim, if k.left <= 1 then k.(pc := LastScan) else k.(left := k.left - 1))
    case LastScan => Look(p, w, victim, k.(pc := PendingTest))
    case PendingTest => Put(p, w, if p.pending != 0 then k.(pc := Normal) else k.(pc := SleepTest))
    case SleepTest => Put(p, w, k.(pc := if k.asleep then SleepAssert else FlagUp))
    case FlagUp => Put(p, w, k.(pc := CountUp, asleep := true))
    case CountUp => Put(p.(mayBe := p.mayBe + 1), w, k.(pc := Scan, left := CHECKS))
    case SleepAssert => if p.sleeping < Size(p) then Put(p, w, k.(pc := SleepUp)) else p.(failed := true)
    case SleepUp => Put(p.(sleeping := p.sleeping + 1), w, k.(pc := Wait))
    case Wait => Put(p, w, k.(pc := SleepDown, event := false))
    case SleepDown => Put(p.(sleeping := p.sleeping - 1), w, k.(pc := WakeAssert))
    case WakeAssert => if p.sleeping < Size(p) then Put(p, w, k.(pc := FlagDown, woken := true)) else p.(failed := true)
    case FlagDown => Put(p, w, k.(pc := CountDown, asleep := false))
    case CountDown => Put(p.(mayBe := p.mayBe - 1), w, k.(pc := ZeroTest))
    case ZeroTest => Put(p, w, if p.mayBe == 0 then k.(pc := Reset) else AfterWaking(k))
    case Reset => Put(p.(pending := 0), w, AfterWaking(k))
    case Normal =>
      Put(p, w, if k.asleep then k.(pc := FlagDown, woken := false)
          else k.(pc := Resume, call := RETURNED.(pc := ProcessAssert)))
    case Resume => Put(p, w, k.(pc := if k.hand.Some? then Busy else Work))
  }

  /** Where setSleeping(false) returns to. */
  function AfterWaking(k: Worker): Worker {
    if k.woken then k.(pc := Scan, left := CHECKS) else k.(pc := Resume)
  }

  function Act(p: Pool, w: nat, action: Action): Pool
    requires w < Size(p)
  {
    match action
    case Schedule(c) =>
      Put(if p.noLocal then p.(queue := p.queue + [c]) else EnqueueLocal(p, w, c), w,
          p.workers[w].(call := RETURNED.(pc := Decide)))
    case Process => Put(p, w, p.workers[w].(call := RETURNED.(pc := ProcessAssert)))
    case Finish => Put(p, w, p.workers[w].(pc := Work, hand := None))
  }

  function EnqueueLocal(p: Pool, w: nat, c: nat): Pool {
    if w < |p.local| then p.(local := p.local[w := p.local[w] + [c]]) else p
  }

  /** A move that is not enabled changes nothing. */
  function Next(p: Pool, m: Move): Pool {
    if !Enabled(p, m) then p else
    match m
    case WorkerStep(w, victim) => Access(p, w, victim)
    case WorkerAct(w, action) => Act(p, w, action)
    case WorkerCall(w, luck) => OwnCallStep(p, w, luck)
    case Enqueue(o, c) =>
      p.(queue := p.queue + [c], callers := p.callers[o := p.callers[o].(call := RETURNED.(pc := Decide))])
    case CallerStep(o, luck) => CallStep(p, o, luck)
  }

  ghost predicate Initial(p: Pool) {
    && |p.local| == |p.workers| >= 1 && p.queue == [] && p.mayBe == 0 && p.sleeping == 0 && p.pending == 0 && !p.failed
    && (forall w :: 0 <= w < |p.workers| ==> p.workers[w] == FRESH && p.local[w] == [])
    && (forall o :: 0 <= o < |p.callers| ==> p.callers[o].call == RETURNED && !p.callers[o].kind.Own?)
  }

  // ---------------------------------------------------------------------
  // The invariant
  // ---------------------------------------------------------------------

  /** Counted by m_mayBeSleepingThreadCount: from after its increment to its decrement. */
  function Counted(): Worker -> int {
    (k: Worker) => One((k.asleep && !k.pc.CountUp?) || k.pc.CountDown?)
  }

  /** Counted by m_sleepingThreadCount. */
  function Sleeping(): Worker -> int {
    (k: Worker) => One(k.pc.Wait? || k.pc.SleepDown?)
  }

  ghost predicate CallFits(p: Pool, c: Call) {
    && (c.pc.LoopCount? || c.pc.LoopFlag? || c.pc.LoopSet? ==> c.i < Size(p))
    && (c.pc.PendTest? ==> 0 <= c.seen <= Size(p))
    && (c.pc.PendCas? ==> 0 <= c.seen < Size(p))
    && (c.pc.ProcessCas? ==> 0 < c.seen)
    && (c.pc.Return? ==> c == RETURNED)
  }

  /** Accesses that may be made with a coroutine in hand. */
  predicate MayHold(k: Worker) {
    || k.pc.Normal? || k.pc.Resume? || k.pc.Busy?
    || (!k.woken && (k.pc.FlagDown? || k.pc.CountDown? || k.pc.ZeroTest? || k.pc.Reset?))
  }

  /** Accesses made with m_isSleeping set, without it, or with either. */
  ghost predicate WorkerFits(p: Pool, k: Worker) {
    && CallFits(p, k.call)
    && (!k.call.pc.Return? ==> k.pc.Busy? || k.pc.Resume?)
    && (k.hand.Some? ==> MayHold(k))
    && (k.pc.Busy? ==> k.hand.Some?)
    && (k.pc.CountUp? || k.pc.SleepAssert? || k.pc.SleepUp? || k.pc.Wait? || k.pc.SleepDown? || k.pc.WakeAssert?
         || k.pc.FlagDown? ==>
          k.asleep)
    && (k.pc.Work? || k.pc.Busy? || k.pc.FlagUp? || k.pc.CountDown? || k.pc.ZeroTest? || k.pc.Reset? || k.pc.Resume? ==>
         !k.asleep)
  }

  ghost predicate WorkersFit(p: Pool) {
    forall w {:trigger WorkerFits(p, p.workers[w])} :: 0 <= w < |p.workers| ==> WorkerFits(p, p.workers[w])
  }

  /** Past its look for work, a worker has none of its own. */
  predicate LocalFits(k: Worker, own: seq<nat>) {
    own == [] || k.pc.Work? || k.pc.Busy? || k.pc.Resume?
  }

  ghost predicate LocalsFit(p: Pool) {
    && |p.local| == |p.workers|
    && forall w {:trigger LocalFits(p.workers[w], p.local[w])} :: 0 <= w < |p.workers| ==>
         LocalFits(p.workers[w], p.local[w])
  }

  ghost predicate CallersFit(p: Pool) {
    forall o {:trigger CallFits(p, p.callers[o].call)} :: 0 <= o < |p.callers| ==>
      CallFits(p, p.callers[o].call) && !p.callers[o].kind.Own?
  }

  /** Has found the queue empty since it was counted as sleeping, and will wait unless it finds a pending request. */
  predicate Committed(k: Worker) {
    k.asleep && (k.pc.PendingTest? || k.pc.SleepTest? || k.pc.SleepAssert? || k.pc.SleepUp? || k.pc.Wait?)
  }

  /** There is work in the global queue and every worker is committed to sleep with its wake-up event unset. */
  ghost predicate Stranded(p: Pool) {
    p.queue != [] && forall w {:trigger p.workers[w]} :: 0 <= w < |p.workers| ==>
        Committed(p.workers[w]) && !p.workers[w].event
  }

  /** A caller that is about to try the first worker, and will set its event. */
  predicate AboutToWake(c: Call) {
    c.pc.Decide? || ((c.pc.LoopCount? || c.pc.LoopFlag? || c.pc.LoopSet?) && c.i == 0 && c.immediate)
  }

  ghost predicate SomebodyWakes(p: Pool) {
    exists o :: 0 <= o < |p.callers| && AboutToWake(p.callers[o].call)
  }

  ghost predicate Inv(p: Pool) {
    && |p.workers| >= 1
    && p.mayBe == Total(p.workers, Counted())
    && p.sleeping == Total(p.workers, Sleeping())
    && 0 <= p.pending <= Size(p)
    && WorkersFit(p)
    && LocalsFit(p)
    && CallersFit(p)
    && (Stranded(p) ==> SomebodyWakes(p))
  }
}
