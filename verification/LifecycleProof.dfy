/** Every access of the coroutine, its completion task and its handles keeps the lifecycle invariant. */
module LifecycleProof {
  import opened Tally
  import opened CoroutineStatus
  import opened Lifecycle

  // ---------------------------------------------------------------------
  // The coroutine and its completion task
  // ---------------------------------------------------------------------

  /** Nothing that the handles know about changes. */
  ghost predicate KeepsHandles(f: Frame, f': Frame) {
    && f'.holders == f.holders && f'.refs == f.refs && f'.lazy == f.lazy && (f.cancelled ==> f'.cancelled)
    && (f'.body.round != f.body.round || f'.body.listed != f.body.listed ==> f.body.pc.AwaitAdd?)
  }

  /** What every access of the coroutine and of its completion task amounts to. */
  ghost predicate GoodStep(f: Frame, f': Frame, x: Handles) {
    !f'.aborted && Fits(f', x) && KeepsHandles(f, f')
  }

  lemma KeepsAllFit(f: Frame, f': Frame, v: View)
    requires AllFit(f, v) && SlotsFit(f, v) && KeepsHandles(f, f') && PauseHolds(f, Summary(f, v))
    ensures AllFit(f', v) && SlotsFit(f', v)
  {
    forall h | 0 <= h < |f'.holders|
      ensures HolderFits(f', v, h)
    {
      assert HolderFits(f, v, h);
    }
  }

  /** It is resumed. */
  lemma Resumes(f: Frame, x: Handles, choice: bool)
    requires Fits(f, x) && !f.aborted
    requires f.body.pc.Parked? || f.body.pc.ResumeSpin?
    ensures GoodStep(f, BodyAccess(f, choice), x)
  {
  }

  /** The status after a request to run. */
  function AfterRunning(s: Status): Status {
    match s
    case NotStarted => Running
    case Suspended => Running
    case PauseOnRunning => Paused
    case _ => s
  }

  lemma RunRequest(f: Frame, x: Handles, choice: bool)
    requires Fits(f, x) && !f.aborted && f.body.pc.ResumeRun?
    ensures BodyAccess(f, choice) ==
              Goto(f.(status := AfterRunning(f.status)), if f.status.PauseOnRunning? then ResumeSpin else Active)
  {
  }

  /** It asks to run, and pauses if a cancel wants it to. */
  lemma Runs(f: Frame, x: Handles, choice: bool)
    requires Fits(f, x) && !f.aborted
    requires f.body.pc.ResumeRun?
    ensures GoodStep(f, BodyAccess(f, choice), x)
  {
    RunRequest(f, x, choice);
  }

  /** Its awaiter leaves the list, unless a cancel has taken it. */
  lemma Unlists(f: Frame, x: Handles, choice: bool)
    requires Fits(f, x) && !f.aborted
    requires f.body.pc.ResumeRemove?
    ensures GoodStep(f, BodyAccess(f, choice), x)
  {
  }

  /** It runs, and awaits again. */
  lemma Awaits(f: Frame, x: Handles, choice: bool)
    requires Fits(f, x) && !f.aborted
    requires f.body.pc.Active? || f.body.pc.AwaitAdd?
    ensures GoodStep(f, BodyAccess(f, choice), x)
  {
  }

  lemma Suspending(f: Frame, x: Handles, choice: bool)
    requires StatusTells(f, x) && !f.aborted && f.body.pc.AwaitSuspend? && f.helper.Off?
    ensures BodyAccess(f, choice) ==
            Goto(f.(status := if f.status.Running? then Status.Suspended else f.status), Parked)
  {
  }

  /** It suspends, or finds that it need not. */
  lemma Suspends(f: Frame, x: Handles, choice: bool)
    requires Fits(f, x) && !f.aborted
    requires f.body.pc.AwaitReady? || f.body.pc.AwaitSuspend?
    ensures GoodStep(f, BodyAccess(f, choice), x)
  {
    if f.body.pc.AwaitSuspend? {
      Suspending(f, x, choice);
    }
  }

  lemma Returning(f: Frame, x: Handles, choice: bool)
    requires StatusTells(f, x) && !f.aborted && f.body.pc.ReturnSet? && f.helper.Off?
    ensures BodyAccess(f, choice) ==
            Goto(f.(status := if f.status.Running? then Status.Returned else f.status), FinalTest)
  {
  }

  /** It returns. */
  lemma Returns(f: Frame, x: Handles, choice: bool)
    requires Fits(f, x) && !f.aborted
    requires f.body.pc.ReturnSet?
    ensures GoodStep(f, BodyAccess(f, choice), x)
  {
    Returning(f, x, choice);
  }

  /** It asks whether it has children. */
  lemma Asks(f: Frame, x: Handles, choice: bool)
    requires Fits(f, x) && !f.aborted
    requires f.body.pc.FinalTest?
    ensures GoodStep(f, BodyAccess(f, choice), x)
  {
  }

  lemma OwnCompletion(f: Frame, x: Handles, choice: bool)
    requires StatusTells(f, x) && !f.aborted && f.body.pc.FinalComplete? && f.helper.Off?
    ensures BodyAccess(f, choice) == Goto(f.(status := AfterCompletion(f.status)), FinalSignal)
  {
  }

  /** It completes by itself. */
  lemma Completes(f: Frame, x: Handles, choice: bool)
    requires Fits(f, x) && !f.aborted
    requires f.body.pc.FinalComplete?
    ensures GoodStep(f, BodyAccess(f, choice), x)
  {
    OwnCompletion(f, x, choice);
  }

  /** It gives up its own token. */
  lemma GivesUp(f: Frame, x: Handles, choice: bool)
    requires Fits(f, x) && !f.aborted
    requires f.body.pc.FinalSignal? || f.body.pc.FinalEnqueue? || f.body.pc.FinalDown?
    ensures GoodStep(f, BodyAccess(f, choice), x)
  {
  }

  /** It looks whether the others are done with it. */
  lemma Looks(f: Frame, x: Handles, choice: bool)
    requires Fits(f, x) && !f.aborted
    requires f.body.pc.FinalReady?
    ensures GoodStep(f, BodyAccess(f, choice), x)
  {
  }

  /** The status after the final suspension. */
  function AfterSuspension(s: Status): Status {
    match s
    case Returned => FinalSuspended
    case ReturnedCompleted => CompletedFinalSuspended
    case Abandoned => AbandonedFinalSuspended
    case _ => s
  }

  lemma FinalSuspension(f: Frame, x: Handles, choice: bool)
    requires StatusTells(f, x) && !f.aborted && f.body.pc.FinalSuspend?
    ensures BodyAccess(f, choice) ==
              Goto(f.(status := AfterSuspension(f.status)), if f.status.AbandonedCompleted? then FinalDestroy else Over)
  {
  }

  /** It suspends for good. */
  lemma EndsSuspended(f: Frame, x: Handles, choice: bool)
    requires Fits(f, x) && !f.aborted
    requires f.body.pc.FinalSuspend?
    ensures GoodStep(f, BodyAccess(f, choice), x)
  {
    FinalSuspension(f, x, choice);
  }

  /** It destroys its frame. */
  lemma EndsDestroyed(f: Frame, x: Handles, choice: bool)
    requires Fits(f, x) && !f.aborted
    requires f.body.pc.FinalDestroy?
    ensures GoodStep(f, BodyAccess(f, choice), x)
  {
  }

  /** The completion task starts. */
  lemma HelperSignals(f: Frame, x: Handles)
    requires Fits(f, x) && !f.aborted && HelperReady(f)
    requires f.helper.Queued? || f.helper.Signal?
    ensures GoodStep(f, HelperAccess(f), x)
  {
  }

  /** The status after the completed state is published. */
  function AfterCompletion(s: Status): Status {
    match s
    case Returned => ReturnedCompleted
    case FinalSuspended => CompletedFinalSuspended
    case Abandoned => AbandonedCompleted
    case _ => s
  }

  lemma HelperCompletion(f: Frame, x: Handles)
    requires Fits(f, x) && !f.aborted && HelperReady(f) && f.helper.SetCompleted?
    ensures HelperAccess(f) ==
              f.(status := AfterCompletion(f.status),
                 helper := if f.status.AbandonedFinalSuspended? then HelperDestroy else HelperDone)
  {
  }

  /** The completion task publishes the completed state. */
  lemma HelperCompletes(f: Frame, x: Handles)
    requires Fits(f, x) && !f.aborted && HelperReady(f)
    requires f.helper.SetCompleted?
    ensures GoodStep(f, HelperAccess(f), x)
  {
    HelperCompletion(f, x);
  }

  /** The completion task destroys the frame. */
  lemma HelperDestroys(f: Frame, x: Handles)
    requires Fits(f, x) && !f.aborted && HelperReady(f)
    requires f.helper.HelperDestroy?
    ensures GoodStep(f, HelperAccess(f), x)
  {
  }

  lemma BodyPreserves(f: Frame, v: View, choice: bool)
    requires Inv(f, v) && Enabled(f, BodyStep(choice))
    ensures Inv(BodyAccess(f, choice), v) && !BodyAccess(f, choice).aborted
  {
    var x, pc := Summary(f, v), f.body.pc;
    if pc.Parked? || pc.ResumeSpin? {
      Resumes(f, x, choice);
    } else if pc.ResumeRun? {
      Runs(f, x, choice);
    } else if pc.ResumeRemove? {
      Unlists(f, x, choice);
    } else if pc.Active? || pc.AwaitAdd? {
      Awaits(f, x, choice);
    } else if pc.AwaitReady? || pc.AwaitSuspend? {
      Suspends(f, x, choice);
    } else {
      FinalPreserves(f, x, choice);
    }
    KeepsAllFit(f, BodyAccess(f, choice), v);
  }

  lemma FinalPreserves(f: Frame, x: Handles, choice: bool)
    requires Fits(f, x) && !f.aborted
    requires AfterBody(f.body.pc)
    ensures GoodStep(f, BodyAccess(f, choice), x)
  {
    var pc := f.body.pc;
    if pc.ReturnSet? {
      Returns(f, x, choice);
    } else if pc.FinalTest? {
      Asks(f, x, choice);
    } else if pc.FinalComplete? {
      Completes(f, x, choice);
    } else if pc.FinalReady? {
      Looks(f, x, choice);
    } else if pc.FinalSuspend? {
      EndsSuspended(f, x, choice);
    } else if pc.FinalDestroy? {
      EndsDestroyed(f, x, choice);
    } else {
      GivesUp(f, x, choice);
    }
  }

  /** Past the end of the user's code. */
  predicate AfterBody(pc: BodyPc) {
    pc.ReturnSet? || pc.FinalTest? || pc.FinalComplete? || pc.FinalSignal? || pc.FinalEnqueue? || pc.FinalDown?
    || pc.FinalReady? || pc.FinalSuspend? || pc.FinalDestroy?
  }

  lemma HelperPreserves(f: Frame, v: View)
    requires Inv(f, v) && Enabled(f, HelperStep)
    ensures Inv(HelperAccess(f), v) && !HelperAccess(f).aborted
  {
    if f.helper.SetCompleted? {
      HelperCompletes(f, Summary(f, v));
    } else if f.helper.HelperDestroy? {
      HelperDestroys(f, Summary(f, v));
    } else {
      HelperSignals(f, Summary(f, v));
    }
    KeepsAllFit(f, HelperAccess(f), v);
  }

  // ---------------------------------------------------------------------
  // The handles
  // ---------------------------------------------------------------------

  /** One holder moves; the view changes at most in what it says of that holder. */
  ghost predicate Moved(f: Frame, f': Frame, v: View, v': View, h: nat, holder: Holder) {
    && h < |f.holders| && f'.holders == f.holders[h := holder]
    && f'.body == f.body && f'.helper == f.helper && f'.lazy == f.lazy && (f.cancelled ==> f'.cancelled)
    && (v'.canceller == v.canceller || (v.canceller == None && v'.canceller == Some(h))
         || (v.canceller == Some(h) && v'.canceller == None))
    && (v'.last == v.last || (v.last == None && v'.last == Some(h) && OthersGone(f, h)))
  }

  ghost predicate OthersGone(f: Frame, h: nat) {
    forall k :: 0 <= k < |f.holders| && k != h ==> f.holders[k].pc.Gone?
  }

  lemma HandleFits(f: Frame, f': Frame, v: View, v': View, h: nat, holder: Holder)
    requires AllFit(f, v) && Moved(f, f', v, v', h, holder) && HolderFits(f', v', h)
    ensures AllFit(f', v')
  {
    forall k | 0 <= k < |f'.holders| && k != h
      ensures HolderFits(f', v', k)
    {
      assert HolderFits(f, v, k);
    }
  }

  lemma RefsKeep(f: Frame, f': Frame, v: View, v': View, h: nat, holder: Holder)
    requires Moved(f, f', v, v', h, holder) && f.refs == Total(f.holders, Reference())
    requires f'.refs == f.refs + Reference()(holder) - Reference()(f.holders[h])
    ensures f'.refs == Total(f'.holders, Reference())
  {
    TotalUpdate(f.holders, Reference(), h, holder);
  }

  /** How one holder's move changes what the holders amount to. */
  lemma SummaryStep(f: Frame, f': Frame, v: View, v': View, h: nat, holder: Holder)
    requires Moved(f, f', v, v', h, holder) && HolderFits(f, v, h) && HolderFits(f', v', h)
    ensures var x, x', was := Summary(f, v), Summary(f', v'), f.holders[h];
            && x'.pause == (if InCancel(was.pc) || InCancel(holder.pc) then Pausing(holder.pc) else x.pause)
            && (InCancel(was.pc) ==> x.pause == Pausing(was.pc))
            && (!InCancel(was.pc) && InCancel(holder.pc) ==> !x.pause)
            && x'.released == (if holder.last then !InLast(holder) else x.released)
            && x'.destroys == (if holder.last then holder.pc.DropDestroy? else x.destroys)
            && (was.last ==> x.released == !InLast(was) && x.destroys == was.pc.DropDestroy?)
            && (!was.last && holder.last ==> !x.released && !x.destroys)
  {
  }

  /** Whoever still has business with its handle keeps the frame from being released. */
  lemma NotReleased(f: Frame, v: View, h: nat)
    requires h < |f.holders| && HolderFits(f, v, h) && !f.holders[h].pc.Gone? && !f.holders[h].pc.DropDestroy?
    ensures !Summary(f, v).released && !Summary(f, v).destroys
  {
  }

  /** An access that changes nothing but the holder, and nothing that matters to others. */
  lemma Private(f: Frame, f': Frame, v: View, v': View, h: nat, holder: Holder)
    requires Inv(f, v) && Moved(f, f', v, v', h, holder) && HolderFits(f', v', h) && SlotsFit(f', v')
    requires f' == f.(holders := f'.holders, refs := f'.refs)
    requires f'.refs == f.refs + Reference()(holder) - Reference()(f.holders[h])
    requires Summary(f', v') == Summary(f, v)
    ensures Inv(f', v')
  {
    HandleFits(f, f', v, v', h, holder);
    RefsKeep(f, f', v, v', h, holder);
  }

  /** What every move of a holder amounts to, apart from the status word. */
  ghost predicate Shape(f: Frame, f': Frame, v: View, v': View, h: nat) {
    && h < |f.holders| == |f'.holders|
    && Moved(f, f', v, v', h, f'.holders[h]) && HolderFits(f', v', h) && SlotsFit(f', v')
    && f'.refs == f.refs + Reference()(f'.holders[h]) - Reference()(f.holders[h])
  }

  predicate Tests(pc: HolderPc) {
    pc.CancelTest? || pc.CancelStatus? || pc.CancelEmpty?
  }

  /** The holder after an access with which cancel decides whether it goes on. */
  function TestNext(f: Frame, k: Holder): Holder {
    var goesOn := if k.pc.CancelTest? then !f.cancelled else if k.pc.CancelStatus? then f.status.Suspended?
        else f.awaiters != [];
    k.(pc := if !goesOn then AfterCancel(k.last)
             else if k.pc.CancelTest? then CancelSet
             else if k.pc.CancelStatus? then CancelEmpty
             else CancelPause)
  }

  function TestView(f: Frame, v: View, k: Holder): View {
    if InCancel(TestNext(f, k).pc) then v else v.(canceller := None)
  }

  lemma TestStep(f: Frame, v: View, h: nat, choice: bool)
    requires Enabled(f, HolderStep(h, choice)) && Tests(f.holders[h].pc)
    ensures HolderAccess(f, h, choice) == Hold(f, h, TestNext(f, f.holders[h]))
    ensures Track(f, v, HolderStep(h, choice)) == TestView(f, v, f.holders[h])
  {
  }

  lemma TestShape(f: Frame, v: View, h: nat)
    requires Inv(f, v) && h < |f.holders| && Tests(f.holders[h].pc)
    ensures Shape(f, Hold(f, h, TestNext(f, f.holders[h])), v, TestView(f, v, f.holders[h]), h)
  {
    assert HolderFits(f, v, h);
  }

  predicate Loops(f: Frame, pc: HolderPc) {
    pc.CancelAwaiter? || pc.CancelAgain? || (pc.CancelTake? && f.awaiters == [])
  }

  /** The holder after an access of the loop in cancel that changes only its own locals. */
  function LoopNext(f: Frame, k: Holder, choice: bool): Holder {
    if k.pc.CancelTake? then k.(pc := if k.blocking then CancelAgain else CancelResume)
    else if k.pc.CancelAwaiter? then k.(pc := CancelTake, blocking := k.blocking || choice)
    else k.(pc := if f.status.Paused? then CancelResume else CancelTake, blocking := false)
  }

  lemma LoopStep(f: Frame, v: View, h: nat, choice: bool)
    requires Enabled(f, HolderStep(h, choice)) && Loops(f, f.holders[h].pc)
    ensures HolderAccess(f, h, choice) == Hold(f, h, LoopNext(f, f.holders[h], choice))
    ensures Track(f, v, HolderStep(h, choice)) == v
  {
  }

  lemma LoopShape(f: Frame, v: View, h: nat, choice: bool)
    requires Inv(f, v) && h < |f.holders| && Loops(f, f.holders[h].pc)
    ensures Shape(f, Hold(f, h, LoopNext(f, f.holders[h], choice)), v, v, h)
  {
    assert HolderFits(f, v, h);
  }

  lemma QuietSummary(f: Frame, f': Frame, v: View, v': View, h: nat)
    requires Inv(f, v) && Shape(f, f', v, v', h)
    requires f' == f.(holders := f'.holders, refs := f'.refs)
    requires Pausing(f'.holders[h].pc) == Pausing(f.holders[h].pc)
    requires f'.holders[h].last ==> InLast(f'.holders[h])
    requires f.holders[h].last ==> InLast(f.holders[h])
    ensures Inv(f', v')
  {
    assert HolderFits(f, v, h);
    SummaryStep(f, f', v, v', h, f'.holders[h]);
    Private(f, f', v, v', h, f'.holders[h]);
  }

  lemma TestPreserves(f: Frame, v: View, h: nat, choice: bool)
    requires Inv(f, v) && Enabled(f, HolderStep(h, choice)) && Tests(f.holders[h].pc)
    ensures Inv(HolderAccess(f, h, choice), Track(f, v, HolderStep(h, choice))) && !HolderAccess(f, h, choice).aborted
  {
    assert HolderFits(f, v, h);
    TestStep(f, v, h, choice);
    TestShape(f, v, h);
    QuietSummary(f, Hold(f, h, TestNext(f, f.holders[h])), v, TestView(f, v, f.holders[h]), h);
  }

  lemma LoopPreserves(f: Frame, v: View, h: nat, choice: bool)
    requires Inv(f, v) && Enabled(f, HolderStep(h, choice)) && Loops(f, f.holders[h].pc)
    ensures Inv(HolderAccess(f, h, choice), Track(f, v, HolderStep(h, choice))) && !HolderAccess(f, h, choice).aborted
  {
    assert HolderFits(f, v, h);
    LoopStep(f, v, h, choice);
    LoopShape(f, v, h, choice);
    QuietSummary(f, Hold(f, h, LoopNext(f, f.holders[h], choice)), v, v, h);
  }

  /** An access that may change the word or the list. */
  lemma LoudPreserves(f: Frame, f': Frame, v: View, v': View, h: nat)
    requires Inv(f, v) && Shape(f, f', v, v', h)
    requires !f'.aborted ==> Fits(f', Summary(f', v'))
    ensures Inv(f', v')
  {
    HandleFits(f, f', v, v', h, f'.holders[h]);
    RefsKeep(f, f', v, v', h, f'.holders[h]);
  }

  lemma SetPreserves(f: Frame, v: View, h: nat, choice: bool)
    requires Inv(f, v) && Enabled(f, HolderStep(h, choice)) && f.holders[h].pc.CancelSet?
    ensures Inv(HolderAccess(f, h, choice), Track(f, v, HolderStep(h, choice))) && !HolderAccess(f, h, choice).aborted
  {
    var f' := HolderAccess(f, h, choice);
    assert HolderFits(f, v, h);
    assert Shape(f, f', v, v, h);
    SummaryStep(f, f', v, v, h, f'.holders[h]);
    LoudPreserves(f, f', v, v, h);
  }

  /** The pause begins, or the status shows that there is nothing to pause. */
  lemma PauseFits(f: Frame, x: Handles)
    requires Fits(f, x) && !x.released && !x.pause && f.cancelled
    ensures SetStatus(f.status, PauseOnRunning, false, f.cancelled) ==
              if f.status.Suspended? then To(PauseOnRunning) else if f.status.CompletedFinalSuspended? then Abort
                  else Keep
    ensures f.status.Suspended? ==> Fits(f.(status := PauseOnRunning), x.(pause := true))
  {
  }

  /** The state and the view after the request to pause, when it is answered. */
  function PauseNext(f: Frame, h: nat): Frame
    requires h < |f.holders|
  {
    var k := f.holders[h];
    if f.status.Suspended? then Hold(f.(status := PauseOnRunning), h, k.(pc := CancelTake, blocking := false))
    else Hold(f, h, k.(pc := AfterCancel(k.last), blocking := false))
  }

  lemma PauseStep(f: Frame, v: View, h: nat, choice: bool)
    requires Enabled(f, HolderStep(h, choice)) && f.holders[h].pc.CancelPause?
    requires SetStatus(f.status, PauseOnRunning, false, f.cancelled) ==
               if f.status.Suspended? then To(PauseOnRunning) else if f.status.CompletedFinalSuspended? then Abort
                   else Keep
    ensures HolderAccess(f, h, choice) == PauseNext(f, h).(aborted := f.status.CompletedFinalSuspended?)
    ensures Track(f, v, HolderStep(h, choice)) == if f.status.Suspended? then v else v.(canceller := None)
  {
  }

  lemma PauseShape(f: Frame, v: View, h: nat)
    requires Inv(f, v) && h < |f.holders| && f.holders[h].pc.CancelPause?
    ensures Shape(f, PauseNext(f, h).(aborted := f.status.CompletedFinalSuspended?),
                  v, if f.status.Suspended? then v else v.(canceller := None), h)
  {
    assert HolderFits(f, v, h);
  }

  lemma PausePreserves(f: Frame, v: View, h: nat, choice: bool)
    requires Inv(f, v) && Enabled(f, HolderStep(h, choice)) && f.holders[h].pc.CancelPause?
    ensures Inv(HolderAccess(f, h, choice), Track(f, v, HolderStep(h, choice)))
    ensures HolderAccess(f, h, choice).aborted <==> f.status.CompletedFinalSuspended?
  {
    assert HolderFits(f, v, h);
    NotReleased(f, v, h);
    PauseFits(f, Summary(f, v));
    PauseStep(f, v, h, choice);
    PauseShape(f, v, h);
    PausePrivate(f, v, h);
  }

  lemma PausePrivate(f: Frame, v: View, h: nat)
    requires Inv(f, v) && !f.aborted && h < |f.holders| && f.holders[h].pc.CancelPause?
    requires var v' := if f.status.Suspended? then v else v.(canceller := None);
             Shape(f, PauseNext(f, h).(aborted := f.status.CompletedFinalSuspended?), v, v', h)
    requires f.status.Suspended? ==> Fits(f.(status := PauseOnRunning), Summary(f, v).(pause := true))
    ensures Inv(PauseNext(f, h).(aborted := f.status.CompletedFinalSuspended?),
                if f.status.Suspended? then v else v.(canceller := None))
  {
    var f' := PauseNext(f, h).(aborted := f.status.CompletedFinalSuspended?);
    var v' := if f.status.Suspended? then v else v.(canceller := None);
    assert HolderFits(f, v, h);
    SummaryStep(f, f', v, v', h, f'.holders[h]);
    LoudPreserves(f, f', v, v', h);
  }

  lemma TakePreserves(f: Frame, v: View, h: nat, choice: bool)
    requires Inv(f, v) && Enabled(f, HolderStep(h, choice)) && f.holders[h].pc.CancelTake? && f.awaiters != []
    ensures Inv(HolderAccess(f, h, choice), v) && !HolderAccess(f, h, choice).aborted
  {
    var f' := HolderAccess(f, h, choice);
    assert HolderFits(f, v, h);
    NotReleased(f, v, h);
    assert Shape(f, f', v, v, h);
    SummaryStep(f, f', v, v, h, f'.holders[h]);
    LoudPreserves(f, f', v, v, h);
  }

  /** The pause ends. */
  lemma ResumeFits(f: Frame, x: Handles)
    requires Fits(f, x) && x.pause
    ensures !x.released && (f.status.PauseOnRunning? || f.status.Paused?)
    ensures Fits(f.(status := if f.status.Paused? then Running else Suspended), x.(pause := false))
  {
  }

  lemma ResumeShape(f: Frame, v: View, h: nat, choice: bool)
    requires Inv(f, v) && Enabled(f, HolderStep(h, choice)) && f.holders[h].pc.CancelResume?
    requires f.status.PauseOnRunning? || f.status.Paused?
    ensures var f' := HolderAccess(f, h, choice);
            && Shape(f, f', v, v.(canceller := None), h)
            && f' == f.(status := if f.status.Paused? then Running else Suspended, holders := f'.holders)
            && f'.holders[h] == f.holders[h].(pc := AfterCancel(f.holders[h].last))
  {
    assert HolderFits(f, v, h);
  }

  /** Only the end of the pause takes a cancel out of its last loop. */
  lemma LoopTrack(f: Frame, v: View, h: nat, choice: bool)
    requires Enabled(f, HolderStep(h, choice))
    ensures f.holders[h].pc.CancelTake? ==> Track(f, v, HolderStep(h, choice)) == v
    ensures f.holders[h].pc.CancelResume? && (f.status.PauseOnRunning? || f.status.Paused?) ==>
              Track(f, v, HolderStep(h, choice)) == v.(canceller := None)
  {
  }

  lemma ResumePreserves(f: Frame, v: View, h: nat, choice: bool)
    requires Inv(f, v) && Enabled(f, HolderStep(h, choice)) && f.holders[h].pc.CancelResume?
    ensures Inv(HolderAccess(f, h, choice), v.(canceller := None)) && (f.status.PauseOnRunning? || f.status.Paused?)
    ensures !HolderAccess(f, h, choice).aborted
  {
    var f', v' := HolderAccess(f, h, choice), v.(canceller := None);
    assert HolderFits(f, v, h);
    ResumeFits(f, Summary(f, v));
    ResumeShape(f, v, h, choice);
    SummaryStep(f, f', v, v', h, f'.holders[h]);
    LoudPreserves(f, f', v, v', h);
  }

  // ---------------------------------------------------------------------
  // Dropping a handle
  // ---------------------------------------------------------------------

  /** A reference count of one means that nobody else has a handle. */
  lemma LastReference(f: Frame, v: View, h: nat)
    requires AllFit(f, v) && f.refs == Total(f.holders, Reference()) == 1 && v.last == None
    requires h < |f.holders| && f.holders[h].pc.DropUnref? && HolderFits(f, v, h)
    ensures OthersGone(f, h)
  {
    var gone := f.holders[h].(pc := Gone);
    TotalUpdate(f.holders, Reference(), h, gone);
    var rest := f.holders[h := gone];
    forall k | 0 <= k < |f.holders| && k != h
      ensures f.holders[k].pc.Gone?
    {
      TotalDominates(rest, Reference(), k);
      assert rest[k] == f.holders[k] && HolderFits(f, v, k);
    }
  }

  /** The state and the view after unRef. */
  function UnrefNext(f: Frame, h: nat): Frame
    requires h < |f.holders|
  {
    var k := f.holders[h];
    Hold(f.(refs := f.refs - 1), h, if f.refs == 1 then k.(pc := DropStatus, last := true) else k.(pc := Gone))
  }

  lemma UnrefStep(f: Frame, v: View, h: nat, choice: bool)
    requires Enabled(f, HolderStep(h, choice)) && f.holders[h].pc.DropUnref? && f.refs > 0
    ensures HolderAccess(f, h, choice) == UnrefNext(f, h)
    ensures Track(f, v, HolderStep(h, choice)) == if f.refs == 1 then v.(last := Some(h)) else v
  {
  }

  lemma UnrefShape(f: Frame, v: View, h: nat)
    requires SlotsFit(f, v) && h < |f.holders| && HolderFits(f, v, h) && f.holders[h].pc.DropUnref?
    requires f.refs == 1 ==> OthersGone(f, h)
    ensures f.refs > 0 && Shape(f, UnrefNext(f, h), v, if f.refs == 1 then v.(last := Some(h)) else v, h)
  {
    if f.refs == 1 {
      assert v.last == None;
    }
  }

  lemma UnrefPreserves(f: Frame, v: View, h: nat, choice: bool)
    requires Inv(f, v) && Enabled(f, HolderStep(h, choice)) && f.holders[h].pc.DropUnref?
    ensures Inv(HolderAccess(f, h, choice), Track(f, v, HolderStep(h, choice))) && !HolderAccess(f, h, choice).aborted
  {
    assert HolderFits(f, v, h);
    var v' := if f.refs == 1 then v.(last := Some(h)) else v;
    if f.refs == 1 {
      LastReference(f, v, h);
    }
    UnrefShape(f, v, h);
    UnrefStep(f, v, h, choice);
    QuietSummary(f, UnrefNext(f, h), v, v', h);
  }

  lemma AdvicePreserves(f: Frame, v: View, h: nat, choice: bool)
    requires Inv(f, v) && Enabled(f, HolderStep(h, choice)) && f.holders[h].last && v.canceller != Some(h)
    requires f.holders[h].pc.DropAdvice? || f.holders[h].pc.DropClear?
             || (f.holders[h].pc.DropStatus? && !f.status.CompletedFinalSuspended?)
    ensures Inv(HolderAccess(f, h, choice), Track(f, v, HolderStep(h, choice)))
  {
    var f', v' := HolderAccess(f, h, choice), Track(f, v, HolderStep(h, choice));
    assert HolderFits(f, v, h);
    NoCanceller(f, v);
    assert Shape(f, f', v, v', h);
    QuietSummary(f, f', v, v', h);
  }

  /** Once the last handle is being dropped, nobody else can be cancelling. */
  lemma NoCanceller(f: Frame, v: View)
    requires AllFit(f, v) && SlotsFit(f, v)
    ensures v.last.Some? && v.canceller.Some? ==> v.canceller == v.last
  {
    if v.canceller.Some? {
      assert HolderFits(f, v, v.canceller.value);
    }
  }

  /** The last handle finds the frame finished, and takes it on itself to destroy it. */
  lemma StatusPreserves(f: Frame, v: View, h: nat, choice: bool)
    requires Inv(f, v) && Enabled(f, HolderStep(h, choice)) && f.holders[h].pc.DropStatus?
    requires f.status.CompletedFinalSuspended?
    ensures Inv(HolderAccess(f, h, choice), v) && !HolderAccess(f, h, choice).aborted
  {
    var f' := HolderAccess(f, h, choice);
    assert HolderFits(f, v, h);
    NotReleased(f, v, h);
    assert Shape(f, f', v, v, h);
    SummaryStep(f, f', v, v, h, f'.holders[h]);
    LoudPreserves(f, f', v, v, h);
  }

  predicate DropDestroys(f: Frame) {
    f.status.CompletedFinalSuspended? || (f.lazy && f.status.NotStarted?)
  }

  /** The status after the last handle has let go. */
  function AfterRelease(s: Status): Status {
    match s
    case FinalSuspended => AbandonedFinalSuspended
    case ReturnedCompleted => AbandonedCompleted
    case CompletedFinalSuspended => CompletedFinalSuspended
    case _ => Abandoned
  }

  lemma Releasing(f: Frame, x: Handles)
    requires Fits(f, x) && !x.released && !x.pause && !f.aborted
    ensures Request(f, Abandoned, false) == f.(status := AfterRelease(f.status))
  {
  }

  lemma AbandonFits(f: Frame, x: Handles)
    requires Fits(f, x) && !x.released && !x.pause && !x.destroys && !f.aborted
    ensures !Request(f, Abandoned, false).aborted
    ensures Fits(Request(f, Abandoned, false), x.(released := true, destroys := DropDestroys(f)))
  {
    Releasing(f, x);
  }

  lemma AbandonShape(f: Frame, v: View, h: nat, choice: bool)
    requires Inv(f, v) && Enabled(f, HolderStep(h, choice)) && f.holders[h].pc.DropAbandon?
    ensures Shape(f, HolderAccess(f, h, choice), v, v, h)
    ensures var f', r := HolderAccess(f, h, choice), Request(f, Abandoned, false);
            f' == r.(holders := f'.holders) && f'.holders[h].last
            && !InLast(f'.holders[h]) && f'.holders[h].pc.DropDestroy? == DropDestroys(f)
  {
    assert HolderFits(f, v, h);
  }

  lemma AbandonPreserves(f: Frame, v: View, h: nat, choice: bool)
    requires Inv(f, v) && Enabled(f, HolderStep(h, choice)) && f.holders[h].pc.DropAbandon?
    ensures Inv(HolderAccess(f, h, choice), v) && !HolderAccess(f, h, choice).aborted
  {
    var f' := HolderAccess(f, h, choice);
    assert HolderFits(f, v, h);
    NotReleased(f, v, h);
    NoCanceller(f, v);
    AbandonFits(f, Summary(f, v));
    AbandonShape(f, v, h, choice);
    SummaryStep(f, f', v, v, h, f'.holders[h]);
    LoudPreserves(f, f', v, v, h);
  }

  lemma DestroyPreserves(f: Frame, v: View, h: nat, choice: bool)
    requires Inv(f, v) && Enabled(f, HolderStep(h, choice)) && f.holders[h].pc.DropDestroy?
    ensures Inv(HolderAccess(f, h, choice), v) && !HolderAccess(f, h, choice).aborted
  {
    var f' := HolderAccess(f, h, choice);
    assert HolderFits(f, v, h);
    assert Shape(f, f', v, v, h);
    SummaryStep(f, f', v, v, h, f'.holders[h]);
    LoudPreserves(f, f', v, v, h);
  }

  // ---------------------------------------------------------------------
  // All moves
  // ---------------------------------------------------------------------

  lemma DropPreserves(f: Frame, v: View, h: nat, choice: bool)
    requires Inv(f, v) && Enabled(f, HolderStep(h, choice)) && !InCancel(f.holders[h].pc)
    ensures Inv(HolderAccess(f, h, choice), Track(f, v, HolderStep(h, choice))) && !HolderAccess(f, h, choice).aborted
  {
    var pc := f.holders[h].pc;
    assert HolderFits(f, v, h);
    if pc.DropUnref? {
      UnrefPreserves(f, v, h, choice);
    } else if pc.DropAbandon? {
      AbandonPreserves(f, v, h, choice);
    } else if pc.DropDestroy? {
      DestroyPreserves(f, v, h, choice);
    } else if pc.DropStatus? && f.status.CompletedFinalSuspended? {
      StatusPreserves(f, v, h, choice);
    } else {
      AdvicePreserves(f, v, h, choice);
    }
  }

  lemma CancelPreserves(f: Frame, v: View, h: nat, choice: bool)
    requires Inv(f, v) && Enabled(f, HolderStep(h, choice)) && InCancel(f.holders[h].pc)
    ensures Inv(HolderAccess(f, h, choice), Track(f, v, HolderStep(h, choice)))
    ensures HolderAccess(f, h, choice).aborted <==> f.holders[h].pc.CancelPause? && f.status.CompletedFinalSuspended?
  {
    var pc := f.holders[h].pc;
    assert HolderFits(f, v, h);
    if Tests(pc) {
      TestPreserves(f, v, h, choice);
    } else if Loops(f, pc) {
      LoopPreserves(f, v, h, choice);
    } else if pc.CancelSet? {
      SetPreserves(f, v, h, choice);
    } else if pc.CancelPause? {
      PausePreserves(f, v, h, choice);
    } else {
      PauseLoopPreserves(f, v, h, choice);
    }
  }

  lemma PauseLoopPreserves(f: Frame, v: View, h: nat, choice: bool)
    requires Inv(f, v) && Enabled(f, HolderStep(h, choice))
    requires f.holders[h].pc.CancelResume? || (f.holders[h].pc.CancelTake? && f.awaiters != [])
    ensures Inv(HolderAccess(f, h, choice), Track(f, v, HolderStep(h, choice))) && !HolderAccess(f, h, choice).aborted
  {
    LoopTrack(f, v, h, choice);
    if f.holders[h].pc.CancelTake? {
      TakePreserves(f, v, h, choice);
    } else {
      ResumePreserves(f, v, h, choice);
    }
  }

  lemma BeginPreserves(f: Frame, v: View, h: nat, call: Call)
    requires Inv(f, v) && Enabled(f, Begin(h, call))
    ensures Inv(Start(f, h, call), Track(f, v, Begin(h, call))) && !Start(f, h, call).aborted
  {
    match call
    case Cancel => CancelStarts(f, v, h);
    case Drop => DropStarts(f, v, h);
    case Copy => CopyPreserves(f, v, h);
    case Await => AwaitPreserves(f, v, h);
  }

  lemma CancelStarts(f: Frame, v: View, h: nat)
    requires Inv(f, v) && h < |f.holders| && f.holders[h].pc.Holding? && NobodyCancels(f)
    ensures Inv(At(f, h, CancelTest), v.(canceller := Some(h)))
  {
    assert HolderFits(f, v, h);
    NobodyIsCanceller(f, v);
    assert Shape(f, At(f, h, CancelTest), v, v.(canceller := Some(h)), h);
    QuietSummary(f, At(f, h, CancelTest), v, v.(canceller := Some(h)), h);
  }

  lemma DropStarts(f: Frame, v: View, h: nat)
    requires Inv(f, v) && h < |f.holders| && f.holders[h].pc.Holding?
    ensures Inv(At(f, h, DropUnref), v)
  {
    assert HolderFits(f, v, h);
    assert Shape(f, At(f, h, DropUnref), v, v, h);
    QuietSummary(f, At(f, h, DropUnref), v, v, h);
  }

  lemma NobodyIsCanceller(f: Frame, v: View)
    requires AllFit(f, v) && SlotsFit(f, v) && NobodyCancels(f)
    ensures v.canceller == None
  {
    assert v.canceller.Some? ==> HolderFits(f, v, v.canceller.value);
  }

  lemma CopyPreserves(f: Frame, v: View, h: nat)
    requires Inv(f, v) && Enabled(f, Begin(h, Copy))
    ensures Inv(Start(f, h, Copy), v)
  {
    var f' := Start(f, h, Copy);
    assert HolderFits(f, v, h);
    TotalAppend(f.holders, Reference(), HOLDING);
    forall k | 0 <= k < |f'.holders|
      ensures HolderFits(f', v, k)
    {
      if k < |f.holders| {
        assert HolderFits(f, v, k);
      }
    }
  }

  lemma AwaitPreserves(f: Frame, v: View, h: nat)
    requires Inv(f, v) && Enabled(f, Begin(h, Await))
    ensures Inv(Start(f, h, Await), v) && !Start(f, h, Await).aborted
  {
    assert HolderFits(f, v, h);
    NotReleased(f, v, h);
    KeepsAllFit(f, Start(f, h, Await), v);
  }

  lemma FlagPreserves(f: Frame, v: View)
    requires Inv(f, v) && Enabled(f, Flag)
    ensures Inv(Next(f, Flag), v)
  {
    KeepsAllFit(f, Next(f, Flag), v);
  }

  lemma InitialInv(f: Frame)
    requires Initial(f)
    ensures Inv(f, View(None, None))
  {
    assert Total(f.holders, Reference()) == 1 by {
      TotalAppend([], Reference(), HOLDING);
      assert [] + [HOLDING] == [HOLDING];
    }
  }

  /**
   The one request that can end the program: a cancel that comes to pause a
   coroutine which has finished since it looked.
   */
  predicate Aborts(f: Frame, m: Move) {
    Enabled(f, m) && m.HolderStep? && f.holders[m.h].pc.CancelPause? && f.status.CompletedFinalSuspended?
  }

  /** The invariant is kept by every move. */
  lemma Preserved(f: Frame, v: View, m: Move)
    requires Inv(f, v)
    ensures Inv(Next(f, m), Track(f, v, m))
    ensures Next(f, m).aborted <==> f.aborted || Aborts(f, m)
  {
    if Enabled(f, m) {
      match m
      case BodyStep(choice) => BodyPreserves(f, v, choice);
      case HelperStep => HelperPreserves(f, v);
      case HolderStep(h, choice) =>
        if InCancel(f.holders[h].pc) {
          CancelPreserves(f, v, h, choice);
        } else {
          DropPreserves(f, v, h, choice);
        }
      case Begin(h, call) => BeginPreserves(f, v, h, call);
      case Flag => FlagPreserves(f, v);
    }
  }
}
