/**
 Owners and completion counts as a machine of interleaved steps: any number of
 coroutines that finish, and any number of threads that change their owners.
 The count-down event below is used through its atomic operations.
 */
module Ownership {
  import opened Tally

  /** Where a coroutine is on its way through its final awaiter and its completion task. */
  datatype Stage =
    | Running           // not finished
    | FinalTest         // final awaiter: completionEvent().count() == 1
    | Publish           // no children: setStatus(Completed); a SyncTask: m_event.set()
    | LastDown          // no children: completionEvent().countDown()
    | LookOwner         // no children, a SyncTask: if (m_owner)
    | Signal            // no children: signalOwner: m_owner.exchange(nullptr)
    | SignalCheck       // no children: signalOwner: assert(!owner->isZero())
    | SignalDown        // no children: signalOwner: owner->countDown()
    | AssertZero        // no children, a SyncTask: assert(completionEvent().isZero())
    | Enqueue           // children: assert(!isZero()), enqueue the completion task
    | OwnDown           // children: completionEvent().countDown()
    | Waiting           // the completion task waits for the count to be zero
    | TaskAssert        // completion task of a SyncTask: assert(!m_owner)
    | TaskEvent         // completion task of a SyncTask: m_event.set()
    | TaskSignal        // completion task: signalOwner: m_owner.exchange(nullptr)
    | TaskCheck         // completion task: signalOwner: assert(!owner->isZero())
    | TaskDown          // completion task: signalOwner: owner->countDown()
    | Done

  /**
   `former` is the owner taken out of `owner` and not yet counted down; `event`:
   the waiter of a SyncTask has been signalled.
   */
  datatype Coroutine = Coroutine(stage: Stage, owner: Option<nat>, former: Option<nat>, sync: bool, event: bool)

  /** The next step of a thread inside setOwner. */
  datatype Pc =
    | Idle
    | Look              // m_completionEvent.isZero()
    | Up                // m_completionEvent.countUp()
    | UndoUp            // already completed: m_completionEvent.countDown()
    | TakeCheck         // assert(!newOwner->isZero())
    | TakeUp            // newOwner->countUp(), assert(!isUpFromZero)
    | Exchange          // m_owner.exchange(newOwner)
    | GiveOld           // oldOwner->countDown()
    | ReleaseGuard      // m_completionEvent.countDown()
    | ZeroCheck         // m_completionEvent.isZero()
    | ThreadSignal      // signalOwner: m_owner.exchange(nullptr)
    | ThreadCheck       // signalOwner: assert(!owner->isZero())
    | ThreadDown        // signalOwner: owner->countDown()

  /** `target` is the coroutine whose owner is being set. */
  datatype Thread = Thread(pc: Pc, target: nat, newOwner: Option<nat>, former: Option<nat>)

  const IDLE := Thread(Idle, 0, None, None)

  /** `max` is the count at which countUp does nothing. */
  datatype System = System(counts: seq<int>, coroutines: seq<Coroutine>, threads: seq<Thread>, failed: bool, max: int)

  datatype Move =
    | Finish(c: nat)
    | Step(c: nat)
    | SetOwner(t: nat, target: nat, newOwner: Option<nat>)
    | ThreadStep(t: nat)

  predicate Runs(s: System, n: nat) {
    n < |s.coroutines| && s.coroutines[n].stage.Running?
  }

  /**
   The new owner is the coroutine that the calling thread runs, so it cannot
   finish during the call. A null one comes only from setCancelAbandoned, which
   has read an owner to clear.
   */
  predicate Enabled(s: System, m: Move) {
    && !s.failed
    && match m
       case Finish(c) => Runs(s, c) && forall t :: 0 <= t < |s.threads| ==> s.threads[t].newOwner != Some(c)
       case Step(c) => c < |s.coroutines| && !s.coroutines[c].stage.Running? && !s.coroutines[c].stage.Done?
       case SetOwner(t, target, newOwner) =>
         && t < |s.threads| && s.threads[t] == IDLE && target < |s.coroutines|
         && (if newOwner.Some? then Runs(s, newOwner.value) else s.coroutines[target].owner.Some?)
       case ThreadStep(t) => t < |s.threads| && !s.threads[t].pc.Idle?
  }

  function Count(s: System, c: nat): int {
    if c < |s.counts| then s.counts[c] else 0
  }

  /** countUp: nothing happens at the maximum. */
  function CountUp(s: System, c: nat): System {
    if c < |s.counts| && s.counts[c] != s.max then s.(counts := s.counts[c := s.counts[c] + 1]) else s
  }

  /** countDown: nothing happens at zero. */
  function CountDown(s: System, c: nat): System {
    if c < |s.counts| && s.counts[c] != 0 then s.(counts := s.counts[c := s.counts[c] - 1]) else s
  }

  function Put(s: System, c: nat, co: Coroutine): System
    requires c < |s.coroutines|
  {
    s.(coroutines := s.coroutines[c := co])
  }

  function Goto(s: System, c: nat, stage: Stage): System
    requires c < |s.coroutines|
  {
    Put(s, c, s.coroutines[c].(stage := stage))
  }

  function Fail(s: System): System {
    s.(failed := true)
  }

  function Or(o: Option<nat>): nat {
    if o.Some? then o.value else 0
  }

  /** What follows when an assertion holds. */
  function Check(ok: bool, co: Coroutine): Option<Coroutine> {
    if ok then Some(co) else None
  }

  /** The coroutine after its next step, or None when an assertion fails. */
  function StageNext(s: System, c: nat): Option<Coroutine>
    requires c < |s.coroutines|
  {
    var co := s.coroutines[c];
    match co.stage
    case FinalTest => Some(co.(stage := if Count(s, c) == 1 then Publish else Enqueue))
    case Publish => Some(co.(stage := LastDown, event := co.sync))
    case LastDown => Some(co.(stage := if co.sync then LookOwner else Signal))
    case LookOwner => Some(co.(stage := if co.owner.Some? then Signal else AssertZero))
    case Signal =>
      Some(co.(stage := if co.owner.Some? then SignalCheck else if co.sync then AssertZero else Done,
               owner := None, former := co.owner))
    case SignalCheck => Check(Count(s, Or(co.former)) != 0, co.(stage := SignalDown))
    case SignalDown => Some(co.(stage := if co.sync then AssertZero else Done, former := None))
    case AssertZero => Check(Count(s, c) == 0, co.(stage := Done))
    case Enqueue => Check(Count(s, c) != 0, co.(stage := OwnDown))
    case OwnDown => Some(co.(stage := Waiting))
    case Waiting => Some(if Count(s, c) != 0 then co else co.(stage := if co.sync then TaskAssert else TaskSignal))
    case TaskAssert => Check(co.owner == None, co.(stage := TaskEvent))
    case TaskEvent => Some(co.(stage := TaskSignal, event := true))
    case TaskSignal => Some(co.(stage := if co.owner.Some? then TaskCheck else Done, owner := None, former := co.owner))
    case TaskCheck => Check(Count(s, Or(co.former)) != 0, co.(stage := TaskDown))
    case TaskDown => Some(co.(stage := Done, former := None))
    case _ => Some(co)
  }

  /** What the step does to the counts. */
  function StageCounts(s: System, c: nat): System
    requires c < |s.coroutines|
  {
    match s.coroutines[c].stage
    case LastDown => CountDown(s, c)
    case OwnDown => CountDown(s, c)
    case SignalDown => CountDown(s, Or(s.coroutines[c].former))
    case TaskDown => CountDown(s, Or(s.coroutines[c].former))
    case _ => s
  }

  function StageStep(s: System, c: nat): System
    requires c < |s.coroutines|
  {
    match StageNext(s, c)
    case None => Fail(s)
    case Some(co) => Put(StageCounts(s, c), c, co)
  }

  function With(s: System, t: nat, th: Thread): System
    requires t < |s.threads|
  {
    s.(threads := s.threads[t := th])
  }

  function Going(ok: bool, th: Thread): Option<Thread> {
    if ok then Some(th) else None
  }

  /** The thread after its next access, or None when an assertion fails. */
  function ThreadNext(s: System, t: nat): Option<Thread>
    requires t < |s.threads| && s.threads[t].target < |s.coroutines|
  {
    var th := s.threads[t];
    var owner := s.coroutines[th.target].owner;
    match th.pc
    case Idle => Some(th)
    case Look => Some(if Count(s, th.target) == 0 then IDLE else th.(pc := Up))
    case Up =>
      Some(th.(pc := if Count(s, th.target) == 0 then UndoUp else if th.newOwner.Some? then TakeCheck else Exchange))
    case UndoUp => Some(th.(pc := ThreadSignal))
    case TakeCheck => Going(Count(s, Or(th.newOwner)) != 0, th.(pc := TakeUp))
    case TakeUp => Going(Count(s, Or(th.newOwner)) != 0, th.(pc := Exchange))
    case Exchange => Some(th.(pc := if owner.Some? then GiveOld else ReleaseGuard, former := owner))
    case GiveOld => Some(th.(pc := ReleaseGuard, former := None))
    case ReleaseGuard => Some(th.(pc := ZeroCheck))
    case ZeroCheck => Some(if Count(s, th.target) == 0 then th.(pc := ThreadSignal) else IDLE)
    case ThreadSignal => Some(if owner.Some? then th.(pc := ThreadCheck, former := owner) else IDLE)
    case ThreadCheck => Going(Count(s, Or(th.former)) != 0, th.(pc := ThreadDown))
    case ThreadDown => Some(IDLE)
  }

  /** The owner of the target after the access. */
  function OwnerAfter(s: System, t: nat): Option<nat>
    requires t < |s.threads| && s.threads[t].target < |s.coroutines|
  {
    var th := s.threads[t];
    if th.pc.Exchange? then th.newOwner else if th.pc.ThreadSignal? then None else s.coroutines[th.target].owner
  }

  /** What the access does to the counts. */
  function ThreadCount(s: System, th: Thread): System {
    match th.pc
    case Up => CountUp(s, th.target)
    case UndoUp => CountDown(s, th.target)
    case TakeUp => CountUp(s, Or(th.newOwner))
    case GiveOld => CountDown(s, Or(th.former))
    case ReleaseGuard => CountDown(s, th.target)
    case ThreadDown => CountDown(s, Or(th.former))
    case _ => s
  }

  function Access(s: System, t: nat): System
    requires t < |s.threads| && s.threads[t].target < |s.coroutines|
  {
    match ThreadNext(s, t)
    case None => Fail(s)
    case Some(th) =>
      var x := s.threads[t].target;
      With(Put(ThreadCount(s, s.threads[t]), x, s.coroutines[x].(owner := OwnerAfter(s, t))), t, th)
  }

  /** A move that is not enabled changes nothing. */
  function Next(s: System, m: Move): System {
    if !Enabled(s, m) then s else
    match m
    case Finish(c) => Goto(s, c, FinalTest)
    case Step(c) => StageStep(s, c)
    case SetOwner(t, target, newOwner) => With(s, t, Thread(Look, target, newOwner, None))
    case ThreadStep(t) => if s.threads[t].target < |s.coroutines| then Access(s, t) else s
  }

  /**
   No count can reach its maximum: a token, two charges for each coroutine, and a
   guard and a charge for each thread.
   */
  predicate HasRoom(s: System) {
    s.max > 1 + 2 * |s.coroutines| + 2 * |s.threads|
  }

  /** Every coroutine holds its own token and has no owner yet. */
  ghost predicate Initial(s: System) {
    && |s.counts| == |s.coroutines| && !s.failed && HasRoom(s)
    && (forall c :: 0 <= c < |s.counts| ==> s.counts[c] == 1)
    && (forall c :: 0 <= c < |s.coroutines| ==>
          s.coroutines[c].stage.Running? && s.coroutines[c].owner == None && s.coroutines[c].former == None
              && !s.coroutines[c].event)
    && (forall t :: 0 <= t < |s.threads| ==> s.threads[t] == IDLE)
  }

  // ---------------------------------------------------------------------
  // What a count is made of
  // ---------------------------------------------------------------------

  /** Its own token is not yet counted down. */
  predicate Token(co: Coroutine) {
    co.stage.Running? || co.stage.FinalTest? || co.stage.Publish? || co.stage.LastDown? || co.stage.Enqueue?
        || co.stage.OwnDown?
  }

  predicate Guarding(pc: Pc) {
    pc.UndoUp? || pc.TakeCheck? || pc.TakeUp? || pc.Exchange? || pc.GiveOld? || pc.ReleaseGuard?
  }

  /** In-flight guards on `c`. */
  function Guards(c: nat): Thread -> int {
    (th: Thread) => One(Guarding(th.pc) && th.target == c)
  }

  /** Charges to `c` that a thread has taken and not published, or withdrawn and not counted down. */
  function ThreadCharges(c: nat): Thread -> int {
    (th: Thread) => One(th.pc.Exchange? && th.newOwner == Some(c))
                    + One((th.pc.GiveOld? || th.pc.ThreadCheck? || th.pc.ThreadDown?) && th.former == Some(c))
  }

  predicate Withdrawing(stage: Stage) {
    stage.SignalCheck? || stage.SignalDown? || stage.TaskCheck? || stage.TaskDown?
  }

  /** Charges to `c` of a coroutine that `c` owns, or that has withdrawn its charge and not counted it down. */
  function OwnedCharges(c: nat): Coroutine -> int {
    (co: Coroutine) => One(co.owner == Some(c)) + One(Withdrawing(co.stage) && co.former == Some(c))
  }

  /** Everything that charges `c` besides its token and the guards. */
  ghost function Charges(s: System, c: nat): int {
    Total(s.threads, ThreadCharges(c)) + Total(s.coroutines, OwnedCharges(c))
  }

  ghost function Balance(s: System, c: nat): int
    requires c < |s.coroutines|
  {
    One(Token(s.coroutines[c])) + Total(s.threads, Guards(c)) + Charges(s, c)
  }

  /** A coroutine's count is its token, the guards on it, and the charges to it. */
  ghost predicate Conserved(s: System) {
    |s.counts| == |s.coroutines| &&
    forall c {:trigger Balance(s, c)} :: 0 <= c < |s.coroutines| ==> s.counts[c] == Balance(s, c)
  }

  // ---------------------------------------------------------------------
  // The invariant
  // ---------------------------------------------------------------------

  /** The specification state beside the machine: the owner each coroutine has signalled and left. */
  type View = seq<Option<nat>>

  function Track(s: System, v: View, m: Move): View {
    if !Enabled(s, m) || |v| != |s.coroutines| then v else
    match m
    case Step(c) =>
      if (s.coroutines[c].stage.Signal? || s.coroutines[c].stage.TaskSignal?) && s.coroutines[c].owner.Some?
          then v[c := s.coroutines[c].owner]
      else v
    case ThreadStep(t) =>
      var th := s.threads[t];
      if th.target >= |v| then v
      else if th.pc.ThreadSignal? && s.coroutines[th.target].owner.Some?
          then v[th.target := s.coroutines[th.target].owner]
      else if th.pc.Exchange? then v[th.target := None]
      else v
    case _ => v
  }

  /** Finished, and nothing charges it any more: this is for good. */
  ghost predicate Closed(s: System, c: nat) {
    c < |s.coroutines| && !Token(s.coroutines[c]) && Charges(s, c) == 0
  }

  /** Stages at which the charges of children may still stand. */
  predicate MayHaveChildren(stage: Stage) {
    stage.Running? || stage.FinalTest? || stage.Enqueue? || stage.OwnDown? || stage.Waiting?
  }

  predicate BeforeEvent(stage: Stage) {
    MayHaveChildren(stage) || stage.Publish? || stage.TaskAssert? || stage.TaskEvent?
  }

  predicate InRange(s: System, o: Option<nat>) {
    o.Some? ==> o.value < |s.coroutines|
  }

  ghost predicate CoroutineFits(s: System, v: View, c: nat)
    requires c < |s.coroutines| == |v|
  {
    var co := s.coroutines[c];
    && InRange(s, co.owner) && InRange(s, co.former)
    && (Withdrawing(co.stage) <==> co.former.Some?)
    && (!MayHaveChildren(co.stage) ==> Charges(s, c) == 0)
    && (co.event ==> !BeforeEvent(co.stage))
    && (v[c].Some? ==> Closed(s, c))
    && (!Token(co) && co.owner.Some? ==> SignalsItself(co.stage) || SomebodySignals(s, c))
  }

  /** The coroutine or its completion task will look at the owner again. */
  predicate SignalsItself(stage: Stage) {
    stage.LookOwner? || stage.Signal? || stage.Waiting? || stage.TaskAssert? || stage.TaskEvent? || stage.TaskSignal?
  }

  /** A thread that will, unless somebody else has come to it. */
  predicate Signals(th: Thread, c: nat) {
    th.target == c && (Guarding(th.pc) || th.pc.ZeroCheck? || th.pc.ThreadSignal?)
  }

  ghost predicate SomebodySignals(s: System, c: nat) {
    exists t :: 0 <= t < |s.threads| && Signals(s.threads[t], c)
  }

  ghost predicate ThreadFits(s: System, th: Thread) {
    && (!th.pc.Idle? ==> th.target < |s.coroutines|)
    && (th.newOwner.Some? ==> Runs(s, th.newOwner.value))
    && (th.pc.Idle? ==> th == IDLE)
    && InRange(s, th.former)
    && (th.pc.TakeCheck? || th.pc.TakeUp? ==> th.newOwner.Some?)
    && (th.pc.GiveOld? || th.pc.ThreadCheck? || th.pc.ThreadDown? ==> th.former.Some?)
    && (th.pc.UndoUp? || th.pc.ThreadSignal? ==> Closed(s, th.target))
  }

  ghost predicate CoroutinesFit(s: System, v: View)
    requires |s.coroutines| == |v|
  {
    forall c {:trigger CoroutineFits(s, v, c)} :: 0 <= c < |s.coroutines| ==> CoroutineFits(s, v, c)
  }

  ghost predicate ThreadsFit(s: System) {
    forall t {:trigger ThreadFits(s, s.threads[t])} :: 0 <= t < |s.threads| ==> ThreadFits(s, s.threads[t])
  }

  ghost predicate Inv(s: System, v: View) {
    && |s.counts| == |s.coroutines| == |v|
    && HasRoom(s)
    && Conserved(s)
    && CoroutinesFit(s, v)
    && ThreadsFit(s)
  }
}
