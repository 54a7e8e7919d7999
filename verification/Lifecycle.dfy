/**
 The life of a coroutine frame as a machine of interleaved atomic accesses: the
 coroutine itself through any number of suspensions, its completion task, and
 any number of task handles that are copied, used to cancel, and dropped.
 */
module Lifecycle {
  import opened Tally
  import opened CoroutineStatus

  /** The next access of the coroutine on the thread that runs it, or how it is suspended. */
  datatype BodyPc =
    | Unstarted         // a Task that nobody has awaited
    | Parked            // suspended; whoever was asked to will resume it
    | ResumeRemove      // onResume: removeAwaiter(this)
    | ResumeRun         // onResume: setStatus(Running)
    | ResumeSpin        // onResume: while (status() == Paused)
    | Active            // running user code
    | AwaitAdd          // onReady: addAwaiter(this)
    | AwaitReady        // onReady: status() and the rest of await_ready
    | AwaitSuspend      // onSuspend: setStatus(Suspended)
    | ReturnSet         // return_value: setStatus(Returned)
    | FinalTest         // final awaiter: completionEvent().count() == 1
    | FinalComplete     // no children: setStatus(Completed)
    | FinalSignal       // no children: m_event.set(), countDown(), signalOwner()
    | FinalEnqueue      // children: enqueue the completion task
    | FinalDown         // children: completionEvent().countDown()
    | FinalReady        // onReady: status() == AbandonedCompleted
    | FinalSuspend      // onSuspend: setStatus(Suspended, true)
    | FinalDestroy      // the frame runs off its end, or handle.destroy()
    | Over              // suspended for good, or gone

  /** `round` numbers the awaits; `listed`: this await has put its awaiter in the list; `ready`: it did not suspend. */
  datatype Body = Body(pc: BodyPc, round: nat, listed: bool, ready: bool)

  /** The completion task: asyncSetCompletedState. */
  datatype HelperPc = Off | Queued | Signal | SetCompleted | HelperDestroy | HelperDone

  datatype HolderPc =
    | Holding
    | CancelTest        // cancel: if (m_cancelled)
    | CancelSet         // cancel: m_cancelled = true
    | CancelStatus      // cancel: status() != Suspended
    | CancelEmpty       // cancel: m_awaiters.isEmpty()
    | CancelPause       // cancel: setStatus(PauseOnRunning)
    | CancelTake        // cancel: m_awaiters.dequeue()
    | CancelAwaiter     // cancel: maybeBlocked(), Awaiter::cancel(awaiter)
    | CancelAgain       // cancel: status() != Paused
    | CancelResume      // cancel: setStatus(Resumed)
    | DropUnref         // destroyOrAbandon: unRef()
    | DropStatus        // destroyOrAbandon: status() == CompletedFinalSuspended
    | DropAdvice        // destroyOrAbandon: shouldCancelAbandoned()
    | DropClear         // destroyOrAbandon: status() again, clearValue()
    | DropAbandon       // destroyOrAbandon: setStatus(Abandoned)
    | DropDestroy       // destroyOrAbandon: m_handle.destroy()
    | Gone

  /** `last`: its unRef returned one; `blocking` and `taken` are the locals of cancel. */
  datatype Holder = Holder(pc: HolderPc, last: bool, blocking: bool, taken: nat)

  const HOLDING := Holder(Holding, false, false, 0)

  /** `lazy`: a Task, which nobody schedules before it is awaited; `destroyed` counts the destructions of the frame. */
  datatype Frame = Frame(
    status: Status, cancelled: bool, refs: int, awaiters: seq<nat>, lazy: bool,
    body: Body, helper: HelperPc, holders: seq<Holder>, destroyed: nat, aborted: bool)

  datatype Call = Cancel | Drop | Copy | Await

  datatype Move =
    | BodyStep(choice: bool)
    | HelperStep
    | HolderStep(h: nat, choice: bool)
    | Begin(h: nat, call: Call)
    | Flag              // setCancelled, by the coroutine itself or by an event or pool that has it in hand

  predicate InCancel(pc: HolderPc) {
    pc.CancelTest? || pc.CancelSet? || pc.CancelStatus? || pc.CancelEmpty? || pc.CancelPause?
    || pc.CancelTake? || pc.CancelAwaiter? || pc.CancelAgain? || pc.CancelResume?
  }

  /** At most one cancel runs at a time, and a Task is awaited by one coroutine at a time. */
  predicate Enabled(f: Frame, m: Move) {
    && !f.aborted
    && match m
       case BodyStep(_) => !f.body.pc.Unstarted? && !f.body.pc.Over?
       case HelperStep => HelperReady(f)
       case HolderStep(h, _) => h < |f.holders| && !f.holders[h].pc.Holding? && !f.holders[h].pc.Gone?
       case Begin(h, Cancel) => h < |f.holders| && f.holders[h].pc.Holding? && NobodyCancels(f)
       case Begin(h, Await) => h < |f.holders| && f.holders[h].pc.Holding? && f.body.pc.Unstarted?
       case Begin(h, _) => h < |f.holders| && f.holders[h].pc.Holding?
       case Flag => !f.body.pc.Unstarted? && !f.body.pc.Over?
  }

  predicate NobodyCancels(f: Frame) {
    forall h :: 0 <= h < |f.holders| ==> !InCancel(f.holders[h].pc)
  }

  /**
   Once the coroutine has counted itself down, its children may bring the count
   to zero, which schedules the completion task.
   */
  predicate HelperReady(f: Frame) {
    f.helper.Signal? || f.helper.SetCompleted? || f.helper.HelperDestroy?
    || (f.helper.Queued?
         && (f.body.pc.FinalReady? || f.body.pc.FinalSuspend? || f.body.pc.FinalDestroy? || f.body.pc.Over?))
  }

  function Put(f: Frame, o: Outcome): Frame {
    match o
    case Keep => f
    case To(s) => f.(status := s)
    case Abort => f.(aborted := true)
  }

  function Request(f: Frame, request: Status, final: bool): Frame {
    Put(f, SetStatus(f.status, request, final, f.cancelled))
  }

  function Goto(f: Frame, pc: BodyPc): Frame {
    f.(body := f.body.(pc := pc))
  }

  /** The coroutine's own accesses; `choice` is what user code and the pool decide. */
  function BodyAccess(f: Frame, choice: bool): Frame {
    match f.body.pc
    case Parked => Goto(f, if f.body.listed then ResumeRemove else ResumeRun)
    case ResumeRemove =>
      if f.body.round in f.awaiters then Goto(f.(awaiters := Without(f.awaiters, f.body.round)), ResumeRun)
      else if f.cancelled then Goto(f, ResumeRun)
      else f.(aborted := true)
    case ResumeRun => Goto(Request(f, Running, false), if f.status.PauseOnRunning? then ResumeSpin else Active)
    case ResumeSpin => if f.status.Paused? then f else Goto(f, Active)
    case Active => Goto(f, if choice then AwaitAdd else ReturnSet)
    case AwaitAdd =>
      f.(awaiters := f.awaiters + [f.body.round + 1], body := Body(AwaitReady, f.body.round + 1, true, false))
    case AwaitReady =>
      if f.status.AbandonedCompleted? then f.(aborted := true)
      else if choice then f.(body := f.body.(pc := ResumeRemove, ready := true))
      else Goto(f, AwaitSuspend)
    case AwaitSuspend => Goto(Request(f, Suspended, false), Parked)
    case ReturnSet => Goto(Request(f, Returned, false), FinalTest)
    case FinalTest => Goto(f, if choice then FinalComplete else FinalEnqueue)
    case FinalComplete => Goto(Request(f, Completed, false), FinalSignal)
    case FinalSignal => Goto(f, FinalReady)
    case FinalEnqueue => Goto(f.(helper := Queued), FinalDown)
    case FinalDown => Goto(f, FinalReady)
    case FinalReady => Goto(f, if f.status.AbandonedCompleted? then FinalDestroy else FinalSuspend)
    case FinalSuspend => Goto(Request(f, Suspended, true), if f.status.AbandonedCompleted? then FinalDestroy else Over)
    case FinalDestroy => Goto(f.(destroyed := f.destroyed + 1), Over)
    case _ => f
  }

  /** The list after remove has found its node. */
  function Without(q: seq<nat>, x: nat): seq<nat> {
    if q == [] then []
    else if q[0] == x then q[1..]
    else [q[0]] + Without(q[1..], x)
  }

  function HelperAccess(f: Frame): Frame {
    match f.helper
    case Queued => f.(helper := Signal)
    case Signal => f.(helper := SetCompleted)
    case SetCompleted =>
      Request(f, Completed, false).(helper := if f.status.AbandonedFinalSuspended? then HelperDestroy else HelperDone)
    case HelperDestroy => f.(helper := HelperDone, destroyed := f.destroyed + 1)
    case _ => f
  }

  function Hold(f: Frame, h: nat, holder: Holder): Frame
    requires h < |f.holders|
  {
    f.(holders := f.holders[h := holder])
  }

  function At(f: Frame, h: nat, pc: HolderPc): Frame
    requires h < |f.holders|
  {
    Hold(f, h, f.holders[h].(pc := pc))
  }

  /** Where cancel returns to. */
  function AfterCancel(last: bool): HolderPc {
    if last then DropClear else Holding
  }

  /** `choice` is what cancel learns from an awaiter and the advice to cancel abandoned coroutines. */
  function HolderAccess(f: Frame, h: nat, choice: bool): Frame
    requires h < |f.holders|
  {
    var holder := f.holders[h];
    match holder.pc
    case CancelTest => At(f, h, if f.cancelled then AfterCancel(holder.last) else CancelSet)
    case CancelSet => At(f.(cancelled := true), h, CancelStatus)
    case CancelStatus => At(f, h, if !f.status.Suspended? then AfterCancel(holder.last) else CancelEmpty)
    case CancelEmpty => At(f, h, if f.awaiters == [] then AfterCancel(holder.last) else CancelPause)
    case CancelPause =>
      Hold(Request(f, PauseOnRunning, false), h,
           holder.(pc := if f.status.Suspended? then CancelTake else AfterCancel(holder.last), blocking := false))
    case CancelTake =>
      if f.awaiters != []
          then Hold(f.(awaiters := f.awaiters[1..]), h, holder.(pc := CancelAwaiter, taken := f.awaiters[0]))
      else At(f, h, if holder.blocking then CancelAgain else CancelResume)
    case CancelAwaiter => Hold(f, h, holder.(pc := CancelTake, blocking := holder.blocking || choice))
    case CancelAgain =>
      Hold(f, h, holder.(pc := if f.status.Paused? then CancelResume else CancelTake, blocking := false))
    case CancelResume =>
      if f.status.PauseOnRunning? || f.status.Paused? then At(Request(f, Resumed, false), h, AfterCancel(holder.last))
      else f.(aborted := true)
    case DropUnref =>
      if f.refs <= 0 then f.(aborted := true)
      else Hold(f.(refs := f.refs - 1), h, if f.refs == 1 then holder.(pc := DropStatus, last := true)
          else holder.(pc := Gone))
    case DropStatus => At(f, h, if f.status.CompletedFinalSuspended? then DropDestroy else DropAdvice)
    case DropAdvice => At(f, h, if choice then CancelTest else DropAbandon)
    case DropClear => At(f, h, DropAbandon)
    case DropAbandon =>
      At(Request(f, Abandoned, false), h,
         if f.status.CompletedFinalSuspended? || (f.lazy && f.status.NotStarted?) then DropDestroy else Gone)
    case DropDestroy => At(f.(destroyed := f.destroyed + 1), h, Gone)
    case _ => f
  }

  function Start(f: Frame, h: nat, call: Call): Frame
    requires h < |f.holders|
  {
    match call
    case Cancel => At(f, h, CancelTest)
    case Drop => At(f, h, DropUnref)
    case Copy => f.(refs := f.refs + 1, holders := f.holders + [HOLDING])
    case Await => if f.status.NotStarted? then Goto(f.(status := Suspended), Parked) else f.(aborted := true)
  }

  /** A move that is not enabled changes nothing. */
  function Next(f: Frame, m: Move): Frame {
    if !Enabled(f, m) then f else
    match m
    case BodyStep(choice) => BodyAccess(f, choice)
    case HelperStep => HelperAccess(f)
    case HolderStep(h, choice) => HolderAccess(f, h, choice)
    case Begin(h, call) => Start(f, h, call)
    case Flag => f.(cancelled := true)
  }

  /**
   One handle exists. An AsyncTask or SyncTask has enlisted its first awaiter
   and waits for the pool; a Task waits for somebody to await it.
   */
  ghost predicate Initial(f: Frame) {
    && f.status.NotStarted? && !f.cancelled && f.refs == 1 && f.holders == [HOLDING]
    && f.helper.Off? && f.destroyed == 0 && !f.aborted
    && f.body == Body(if f.lazy then Unstarted else Parked, 0, !f.lazy, false)
    && f.awaiters == if f.lazy then [] else [0]
  }

  // ---------------------------------------------------------------------
  // The invariant
  // ---------------------------------------------------------------------

  /**
   The specification state beside the machine: the handle that runs cancel, and
   the handle whose unRef returned one.
   */
  datatype View = View(canceller: Option<nat>, last: Option<nat>)

  function Track(f: Frame, v: View, m: Move): View {
    if !Enabled(f, m) then v else
    match m
    case Begin(h, Cancel) => v.(canceller := Some(h))
    case HolderStep(h, choice) =>
      if f.holders[h].pc.DropUnref? && f.refs == 1 then v.(last := Some(h))
      else if f.holders[h].pc.DropAdvice? && choice then v.(canceller := Some(h))
      else if InCancel(f.holders[h].pc) && !InCancel(Next(f, m).holders[h].pc) then v.(canceller := None)
      else v
    case _ => v
  }

  /** Has given up its reference, as the last one, and not yet let the coroutine go. */
  predicate InLast(h: Holder) {
    h.last && !h.pc.DropDestroy? && !h.pc.Gone?
  }

  /** The accesses made with the reference still counted. */
  predicate Counts(h: Holder) {
    h.pc.Holding? || h.pc.DropUnref? || (InCancel(h.pc) && !h.last)
  }

  function Reference(): Holder -> int {
    (h: Holder) => if Counts(h) then 1 else 0
  }

  ghost predicate HolderFits(f: Frame, v: View, h: nat)
    requires h < |f.holders|
  {
    var holder := f.holders[h];
    && (InCancel(holder.pc) <==> v.canceller == Some(h))
    && (holder.last <==> v.last == Some(h))
    && (v.last.Some? && !holder.last ==> holder.pc.Gone?)
    && (holder.pc.Holding? || holder.pc.DropUnref? ==> !holder.last)
    && (Dropping(holder.pc) ==> holder.last)
    && (PastTest(holder.pc) ==> f.cancelled)
    && (holder.pc.CancelAwaiter? ==> holder.taken == f.body.round && f.body.listed)
  }

  /** The accesses made after the last reference is given up, outside cancel. */
  predicate Dropping(pc: HolderPc) {
    pc.DropStatus? || pc.DropAdvice? || pc.DropClear? || pc.DropAbandon? || pc.DropDestroy?
  }

  predicate PastTest(pc: HolderPc) {
    pc.CancelStatus? || pc.CancelEmpty? || pc.CancelPause? || Pausing(pc)
  }

  /** Between the PauseOnRunning and Resumed requests. */
  predicate Pausing(pc: HolderPc) {
    pc.CancelTake? || pc.CancelAwaiter? || pc.CancelAgain? || pc.CancelResume?
  }

  ghost predicate AllFit(f: Frame, v: View) {
    forall h {:trigger HolderFits(f, v, h)} :: 0 <= h < |f.holders| ==> HolderFits(f, v, h)
  }

  ghost predicate SlotsFit(f: Frame, v: View) {
    && (v.canceller.Some? ==> v.canceller.value < |f.holders|)
    && (v.last.Some? ==> v.last.value < |f.holders| && f.refs == 0)
    && (v.last.None? ==> f.refs > 0)
  }

  // What the holders amount to for everybody else.

  /**
   `pause`: a cancel has asked for the pause and not yet ended it; `released`:
   the last handle has let go; `destroys`: it is about to destroy.
   */
  datatype Handles = Handles(pause: bool, released: bool, destroys: bool)

  function Summary(f: Frame, v: View): Handles {
    Handles(v.canceller.Some? && v.canceller.value < |f.holders| && Pausing(f.holders[v.canceller.value].pc),
            v.last.Some? && v.last.value < |f.holders| && !InLast(f.holders[v.last.value]),
            v.last.Some? && v.last.value < |f.holders| && f.holders[v.last.value].pc.DropDestroy?)
  }

  /**
   Three events end the life of a frame. The first: the coroutine is suspended
   for good, or has found that it need not be.
   */
  predicate Final(f: Frame) {
    f.body.pc.FinalDestroy? || f.body.pc.Over?
  }

  /**
   The second: the completed state has been published, by the coroutine or by its
   completion task. The third is `released`.
   */
  predicate Complete(f: Frame) {
    f.helper.HelperDestroy? || f.helper.HelperDone?
    || (f.helper.Off? && (f.body.pc.FinalSignal? || f.body.pc.FinalReady? || f.body.pc.FinalSuspend? || Final(f)))
  }

  /** In the middle of resuming after a suspension, or waiting to. */
  predicate Resuming(pc: BodyPc) {
    pc.Parked? || pc.ResumeRemove? || pc.ResumeRun?
  }

  /** The status before any of the three events, told from what the coroutine and a canceller are doing. */
  function LiveStatus(f: Frame, pause: bool): Status {
    var b := f.body;
    if b.pc.Unstarted? || (Resuming(b.pc) && b.round == 0 && !f.lazy) then NotStarted
    else if Resuming(b.pc) && !b.ready then (if pause then PauseOnRunning else Suspended)
    else if b.pc.ResumeSpin? then (if pause then Paused else Running)
    else if Resuming(b.pc) || b.pc.Active? || b.pc.AwaitAdd? || b.pc.AwaitReady? || b.pc.AwaitSuspend?
        || b.pc.ReturnSet? then Running
    else Returned
  }

  /** The status word tells which of the three events have happened. */
  predicate StatusTells(f: Frame, x: Handles) {
    if !x.released then
      f.status == (if Final(f) then (if Complete(f) then CompletedFinalSuspended else FinalSuspended)
                   else if Complete(f) then ReturnedCompleted
                   else LiveStatus(f, x.pause))
    else if Final(f) && Complete(f) then
      f.status.CompletedFinalSuspended? || f.status.AbandonedFinalSuspended? || f.status.AbandonedCompleted?
    else
      f.status == (if Final(f) then AbandonedFinalSuspended else if Complete(f) then AbandonedCompleted else Abandoned)
  }

  /** Where the coroutine can be while a cancel is in its pause. */
  predicate PauseHolds(f: Frame, x: Handles) {
    x.pause ==>
      (!x.released && f.cancelled
       && ((Resuming(f.body.pc) && !f.body.ready && (f.body.round > 0 || f.lazy)) || f.body.pc.ResumeSpin?))
  }

  /** Awaits whose awaiter may still be in the list. */
  predicate Enlisted(pc: BodyPc) {
    pc.AwaitReady? || pc.AwaitSuspend? || pc.Parked? || pc.ResumeRemove?
  }

  /** The list holds the awaiter of the current await or nothing; only a cancel takes it early. */
  predicate ListFits(f: Frame) {
    && (f.awaiters == [] || (f.awaiters == [f.body.round] && f.body.listed && Enlisted(f.body.pc)))
    && (f.body.listed && Enlisted(f.body.pc) ==> f.awaiters != [] || f.cancelled)
  }

  predicate BodyFits(f: Frame) {
    && (f.body.pc.AwaitReady? || f.body.pc.AwaitSuspend? || f.body.pc.ResumeRemove? ==> f.body.listed)
    && (f.body.pc.AwaitReady? || f.body.pc.AwaitSuspend? ==> !f.body.ready && f.body.round > 0)
    && (f.body.pc.Parked? ==> !f.body.ready)
    && (f.body.ready ==> f.body.round > 0)
    && (f.body.pc.Unstarted? ==> f.lazy && f.awaiters == [] && f.body.round == 0 && !f.body.ready && !f.body.listed)
    && (!f.helper.Off? ==> f.body.pc.FinalDown? || f.body.pc.FinalReady? || f.body.pc.FinalSuspend? || Final(f))
    && (f.body.pc.FinalDown? ==> f.helper.Queued?)
  }

  /**
   The last of the three events decides on the one destruction; a Task that
   nobody awaited goes with its last handle.
   */
  predicate DestructionDue(f: Frame, x: Handles) {
    f.destroyed + One(f.body.pc.FinalDestroy?) + One(f.helper.HelperDestroy?) + One(x.destroys) ==
    One(x.released && ((Final(f) && Complete(f)) || f.body.pc.Unstarted?))
  }

  predicate Fits(f: Frame, x: Handles) {
    && StatusTells(f, x)
    && PauseHolds(f, x)
    && ListFits(f)
    && BodyFits(f)
    && DestructionDue(f, x)
  }

  ghost predicate Inv(f: Frame, v: View) {
    && f.refs == Total(f.holders, Reference())
    && AllFit(f, v)
    && SlotsFit(f, v)
    && (!f.aborted ==> Fits(f, Summary(f, v)))
  }
}
