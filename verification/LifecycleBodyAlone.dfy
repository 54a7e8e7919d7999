/** What a coroutine and its completion task do when nobody else moves: suspend, resume, finish. */
module LifecycleBodyAlone {
  import opened Tally
  import opened Undisturbed
  import opened CoroutineStatus
  import opened Lifecycle
  import opened LifecycleProof

  // ---------------------------------------------------------------------
  // The coroutine
  // ---------------------------------------------------------------------

  /** `choice` says what user code and the pool decide at each access. */
  function BodyForward(f: Frame, choice: BodyPc -> bool): Frame {
    Next(f, BodyStep(choice(f.body.pc)))
  }

  function BodyMover(choice: BodyPc -> bool): Frame -> Frame {
    (f: Frame) => BodyForward(f, choice)
  }

  /** After `n` accesses of the coroutine, with nobody else moving. */
  function BodyAlone(f: Frame, choice: BodyPc -> bool, n: nat): Frame {
    After(BodyMover(choice), f, n)
  }

  lemma Extend(f: Frame, choice: BodyPc -> bool, n: nat, f1: Frame, f2: Frame)
    requires BodyAlone(f, choice, n) == f1 && BodyForward(f1, choice) == f2
    ensures BodyAlone(f, choice, n + 1) == f2
  {
    AfterMore(BodyMover(choice), f, n, 1);
    AfterFew(BodyMover(choice), f1);
  }

  lemma Chain(f: Frame, choice: BodyPc -> bool, a: nat, f1: Frame, b: nat, f2: Frame)
    requires BodyAlone(f, choice, a) == f1 && BodyAlone(f1, choice, b) == f2
    ensures BodyAlone(f, choice, a + b) == f2
  {
    AfterMore(BodyMover(choice), f, a, b);
  }

  /** The coroutine runs, as far as its handles let it know. */
  function Ran(s: Status): Status {
    if s.Abandoned? then Status.Abandoned else Running
  }

  /** Back in user code, out of the list of awaiters. */
  function Resumed(f: Frame): Frame {
    f.(status := Ran(f.status), awaiters := [], body := f.body.(pc := Active))
  }

  /** From the list of awaiters back to user code. */
  lemma Unlists(f: Frame, choice: BodyPc -> bool)
    requires f.body.pc.ResumeRemove? && !f.aborted
    requires f.status.NotStarted? || f.status.Suspended? || f.status.Running? || f.status.Abandoned?
    requires f.awaiters == [f.body.round] || (f.awaiters == [] && f.cancelled)
    ensures BodyAlone(f, choice, 2) == Resumed(f)
  {
    var f1 := f.(awaiters := [], body := f.body.(pc := ResumeRun));
    assert f.awaiters == [f.body.round] ==> Without(f.awaiters, f.body.round) == f.awaiters[1..] == [];
    Extend(f, choice, 0, f, f1);
    Extend(f, choice, 1, f1, Resumed(f));
  }

  lemma Unparks(f: Frame, choice: BodyPc -> bool) returns (n: nat)
    requires f.body.pc.Parked? && !f.aborted
    requires f.status.NotStarted? || f.status.Suspended? || f.status.Abandoned?
    requires if f.body.listed then f.awaiters == [f.body.round] || (f.awaiters == [] && f.cancelled)
             else f.awaiters == []
    ensures BodyAlone(f, choice, n) == Resumed(f)
  {
    if f.body.listed {
      var f1 := Goto(f, ResumeRemove);
      Extend(f, choice, 0, f, f1);
      Unlists(f1, choice);
      Chain(f, choice, 1, f1, 2, Resumed(f));
      n := 3;
    } else {
      var f1 := Goto(f, ResumeRun);
      Extend(f, choice, 0, f, f1);
      Extend(f, choice, 1, f1, Resumed(f));
      n := 2;
    }
  }

  /** A suspended coroutine that is resumed and moves alone is back in user code, unless a cancel wants it to pause. */
  lemma ResumeAlone(f: Frame, v: View, choice: BodyPc -> bool) returns (n: nat)
    requires Inv(f, v) && !f.aborted && f.body.pc.Parked? && !f.status.PauseOnRunning?
    ensures BodyAlone(f, choice, n) == Resumed(f)
  {
    ParkedFacts(f, v);
    n := Unparks(f, choice);
  }

  lemma ParkedFacts(f: Frame, v: View)
    requires Inv(f, v) && !f.aborted && f.body.pc.Parked?
    ensures f.status.NotStarted? || f.status.Suspended? || f.status.Abandoned? || f.status.PauseOnRunning?
    ensures if f.body.listed then f.awaiters == [f.body.round] || (f.awaiters == [] && f.cancelled)
            else f.awaiters == []
  {
    assert Fits(f, Summary(f, v));
  }

  /** While a cancel is in its pause, the coroutine comes to wait for its end, and stays there. */
  lemma {:induction false} PausesAlone(f: Frame, choice: BodyPc -> bool, n: nat)
    requires f.body.pc.ResumeRun? && !f.aborted && f.status.PauseOnRunning?
    ensures BodyAlone(f, choice, 1 + n) == f.(status := Paused, body := f.body.(pc := ResumeSpin))
  {
    if n == 0 {
      Extend(f, choice, 0, f, f.(status := Paused, body := f.body.(pc := ResumeSpin)));
    } else {
      var f1 := f.(status := Paused, body := f.body.(pc := ResumeSpin));
      PausesAlone(f, choice, n - 1);
      Extend(f, choice, n, f1, f1);
    }
  }

  /** Suspended in its next await, with the awaiter in the list. */
  function Suspended(f: Frame): Frame {
    f.(status := if f.status.Abandoned? then Status.Abandoned else Status.Suspended, awaiters := [f.body.round + 1],
       body := Body(Parked, f.body.round + 1, true, false))
  }

  predicate InUserCode(f: Frame) {
    f.body.pc.Active? && !f.aborted && f.awaiters == [] && (f.status.Running? || f.status.Abandoned?)
  }

  lemma UserCode(f: Frame, v: View)
    requires Inv(f, v) && !f.aborted && f.body.pc.Active?
    ensures InUserCode(f) && f.helper.Off?
  {
    assert Fits(f, Summary(f, v));
  }

  /** The awaiter of the next await is in the list. */
  function Enlisting(f: Frame): Frame {
    f.(awaiters := [f.body.round + 1], body := Body(AwaitReady, f.body.round + 1, true, false))
  }

  lemma Enlists(f: Frame, choice: BodyPc -> bool)
    requires InUserCode(f) && choice(Active)
    ensures BodyAlone(f, choice, 2) == Enlisting(f)
  {
    var f1 := Goto(f, AwaitAdd);
    Extend(f, choice, 0, f, f1);
    Extend(f, choice, 1, f1, Enlisting(f));
  }

  lemma SuspendsEnlisted(f: Frame, choice: BodyPc -> bool)
    requires InUserCode(f) && !choice(AwaitReady)
    ensures BodyAlone(Enlisting(f), choice, 2) == Suspended(f)
  {
    var f2 := Enlisting(f);
    var f3 := Goto(f2, AwaitSuspend);
    Extend(f2, choice, 0, f2, f3);
    Extend(f2, choice, 1, f3, Suspended(f));
  }

  /** A coroutine that awaits something that is not ready is suspended, its awaiter in the list. */
  lemma SuspendAlone(f: Frame, v: View, choice: BodyPc -> bool)
    requires Inv(f, v) && !f.aborted && f.body.pc.Active? && choice(Active) && !choice(AwaitReady)
    ensures BodyAlone(f, choice, 4) == Suspended(f)
  {
    UserCode(f, v);
    Enlists(f, choice);
    SuspendsEnlisted(f, choice);
    Chain(f, choice, 2, Enlisting(f), 2, Suspended(f));
  }

  /** A coroutine that awaits something that is ready goes on, its awaiter out of the list again. */
  lemma ReadyAlone(f: Frame, v: View, choice: BodyPc -> bool)
    requires Inv(f, v) && !f.aborted && f.body.pc.Active? && choice(Active) && choice(AwaitReady)
    ensures BodyAlone(f, choice, 5) == f.(body := Body(Active, f.body.round + 1, true, true))
  {
    UserCode(f, v);
    Enlists(f, choice);
    var f2 := Enlisting(f);
    var f3 := f2.(body := f2.body.(pc := ResumeRemove, ready := true));
    Extend(f, choice, 2, f2, f3);
    Unlists(f3, choice);
    Chain(f, choice, 3, f3, 2, Resumed(f3));
  }

  // ---------------------------------------------------------------------
  // Its end
  // ---------------------------------------------------------------------

  /** The coroutine has returned without children, or with children and its completion task queued. */
  function Finished(f: Frame, children: bool): Frame {
    var over := f.(body := f.body.(pc := Over));
    if children then
      over.(helper := Queued, status := if f.status.Abandoned? then AbandonedFinalSuspended else FinalSuspended)
    else if f.status.Abandoned? then over.(status := AbandonedCompleted, destroyed := f.destroyed + 1)
    else over.(status := CompletedFinalSuspended)
  }

  function Returned(f: Frame): Frame {
    f.(status := if f.status.Abandoned? then Status.Abandoned else Status.Returned, body := f.body.(pc := FinalTest))
  }

  lemma ReturnsAlone(f: Frame, choice: BodyPc -> bool)
    requires InUserCode(f) && !choice(Active)
    ensures BodyAlone(f, choice, 2) == Returned(f)
  {
    var f1 := Goto(f, ReturnSet);
    Extend(f, choice, 0, f, f1);
    Extend(f, choice, 1, f1, Returned(f));
  }

  /** The completion task is queued and the coroutine's own token is down. */
  function Left(f: Frame): Frame {
    Returned(f).(helper := Queued, body := f.body.(pc := FinalReady))
  }

  lemma QueuesTask(f: Frame, choice: BodyPc -> bool)
    requires InUserCode(f) && !choice(FinalTest)
    ensures BodyAlone(Returned(f), choice, 3) == Left(f)
  {
    var g := Returned(f);
    var g1, g2 := Goto(g, FinalEnqueue), Goto(Left(f), FinalDown);
    Extend(g, choice, 0, g, g1);
    Extend(g, choice, 1, g1, g2);
    Extend(g, choice, 2, g2, Left(f));
  }

  lemma EndsLeft(f: Frame, choice: BodyPc -> bool)
    requires InUserCode(f)
    ensures BodyAlone(Left(f), choice, 2) == Finished(f, true)
  {
    var g := Left(f);
    var g1 := Goto(g, FinalSuspend);
    Extend(g, choice, 0, g, g1);
    Extend(g, choice, 1, g1, Finished(f, true));
  }

  function Published(f: Frame): Frame {
    f.(status := if f.status.Abandoned? then AbandonedCompleted else ReturnedCompleted,
       body := f.body.(pc := FinalReady))
  }

  lemma Publishes(f: Frame, choice: BodyPc -> bool)
    requires InUserCode(f) && choice(FinalTest)
    ensures BodyAlone(Returned(f), choice, 3) == Published(f)
  {
    var g := Returned(f);
    var g1, g2 := Goto(g, FinalComplete), Goto(Published(f), FinalSignal);
    Extend(g, choice, 0, g, g1);
    Extend(g, choice, 1, g1, g2);
    Extend(g, choice, 2, g2, Published(f));
  }

  lemma EndsPublished(f: Frame, choice: BodyPc -> bool)
    requires InUserCode(f)
    ensures BodyAlone(Published(f), choice, 2) == Finished(f, false)
  {
    var g := Published(f);
    var g1 := Goto(g, if f.status.Abandoned? then FinalDestroy else FinalSuspend);
    Extend(g, choice, 0, g, g1);
    Extend(g, choice, 1, g1, Finished(f, false));
  }

  /**
   A coroutine that returns, alone: without children its completion is published
   and it is suspended for good, or it destroys itself if nobody holds a handle;
   with children it leaves the completion to its completion task.
   */
  lemma FinishAlone(f: Frame, v: View, choice: BodyPc -> bool)
    requires Inv(f, v) && !f.aborted && f.body.pc.Active? && !choice(Active)
    ensures BodyAlone(f, choice, 7) == Finished(f, !choice(FinalTest))
  {
    UserCode(f, v);
    ReturnsAlone(f, choice);
    if choice(FinalTest) {
      Publishes(f, choice);
      EndsPublished(f, choice);
      Chain(Returned(f), choice, 3, Published(f), 2, Finished(f, false));
    } else {
      QueuesTask(f, choice);
      EndsLeft(f, choice);
      Chain(Returned(f), choice, 3, Left(f), 2, Finished(f, true));
    }
    Chain(f, choice, 2, Returned(f), 5, Finished(f, !choice(FinalTest)));
  }

  // ---------------------------------------------------------------------
  // From wherever the coroutine is
  // ---------------------------------------------------------------------

  /** In user code, suspended, gone, or paused by a cancel. */
  predicate Settles(f: Frame) {
    || f.body.pc.Active? || f.body.pc.Parked? || f.body.pc.Over? || f.body.pc.Unstarted?
    || (f.body.pc.ResumeSpin? && f.status.Paused?)
  }

  /** Bounds the accesses until then. */
  function ToSettle(pc: BodyPc): nat {
    match pc
    case ResumeRemove => 3
    case ResumeRun => 2
    case ResumeSpin => 1
    case AwaitAdd => 6
    case AwaitReady => 5
    case AwaitSuspend => 4
    case ReturnSet => 7
    case FinalTest => 6
    case FinalComplete => 5
    case FinalSignal => 4
    case FinalEnqueue => 5
    case FinalDown => 4
    case FinalReady => 3
    case FinalSuspend => 2
    case FinalDestroy => 1
    case _ => 0
  }

  lemma SettlesNearer(f: Frame, choice: BodyPc -> bool)
    requires !f.aborted && !Settles(f) && !BodyForward(f, choice).aborted
    ensures ToSettle(BodyForward(f, choice).body.pc) < ToSettle(f.body.pc) || Settles(BodyForward(f, choice))
  {
    if f.body.pc.ResumeRun? || f.body.pc.AwaitSuspend? || f.body.pc.ReturnSet? || f.body.pc.FinalComplete?
       || f.body.pc.FinalSuspend? {
      RequestNearer(f, choice);
    }
  }

  lemma RequestNearer(f: Frame, choice: BodyPc -> bool)
    requires !f.aborted && !BodyForward(f, choice).aborted
    requires f.body.pc.ResumeRun? || f.body.pc.AwaitSuspend? || f.body.pc.ReturnSet? || f.body.pc.FinalComplete?
             || f.body.pc.FinalSuspend?
    ensures ToSettle(BodyForward(f, choice).body.pc) < ToSettle(f.body.pc)
  {
  }

  /**
   Wherever a coroutine is, it comes by itself to user code, to a suspension, to
   its end, or to the pause of a cancel.
   */
  lemma {:induction false} SettlesAlone(f: Frame, v: View, choice: BodyPc -> bool) returns (n: nat)
    requires Inv(f, v) && !f.aborted
    ensures Settles(BodyAlone(f, choice, n))
    decreases ToSettle(f.body.pc)
  {
    if Settles(f) {
      n := 0;
    } else {
      var m := BodyStep(choice(f.body.pc));
      Preserved(f, v, m);
      SettlesNearer(f, choice);
      if Settles(Next(f, m)) {
        n := 0;
      } else {
        n := SettlesAlone(Next(f, m), Track(f, v, m), choice);
      }
      FirstStep(f, choice, n);
      n := n + 1;
    }
  }

  lemma FirstStep(f: Frame, choice: BodyPc -> bool, n: nat)
    ensures BodyAlone(f, choice, n + 1) == BodyAlone(BodyForward(f, choice), choice, n)
  {
  }

  // ---------------------------------------------------------------------
  // The completion task
  // ---------------------------------------------------------------------

  function HelperMover(): Frame -> Frame {
    (f: Frame) => Next(f, HelperStep)
  }

  function HelperAlone(f: Frame, n: nat): Frame {
    After(HelperMover(), f, n)
  }

  lemma HelperExtend(f: Frame, n: nat, f1: Frame, f2: Frame)
    requires HelperAlone(f, n) == f1 && Next(f1, HelperStep) == f2
    ensures HelperAlone(f, n + 1) == f2
  {
    AfterMore(HelperMover(), f, n, 1);
    AfterFew(HelperMover(), f1);
  }

  /** The completed state is published; the frame goes if the coroutine is suspended for good and no handle is left. */
  function Helped(f: Frame): Frame {
    f.(helper := HelperDone, status := AfterCompletion(f.status),
       destroyed := f.destroyed + if f.status.AbandonedFinalSuspended? then 1 else 0)
  }

  lemma HelperStatus(f: Frame, v: View)
    requires Inv(f, v) && !f.aborted && HelperReady(f) && f.helper.Queued?
    ensures f.status.Returned? || f.status.Abandoned? || f.status.FinalSuspended? || f.status.AbandonedFinalSuspended?
  {
    assert Fits(f, Summary(f, v));
  }

  lemma TaskPublishes(f: Frame)
    requires !f.aborted && HelperReady(f) && f.helper.Queued?
    requires f.status.Returned? || f.status.Abandoned? || f.status.FinalSuspended? || f.status.AbandonedFinalSuspended?
    ensures HelperAlone(f, 3) == f.(status := AfterCompletion(f.status),
                                    helper := if f.status.AbandonedFinalSuspended? then HelperDestroy else HelperDone)
  {
    var f1, f2 := f.(helper := Signal), f.(helper := SetCompleted);
    HelperExtend(f, 0, f, f1);
    HelperExtend(f, 1, f1, f2);
    HelperExtend(f, 2, f2, f.(status := AfterCompletion(f.status),
                              helper := if f.status.AbandonedFinalSuspended? then HelperDestroy else HelperDone));
  }

  /** The completion task, alone, publishes the completed state, and destroys the frame when it comes last. */
  lemma CompleteAlone(f: Frame, v: View) returns (n: nat)
    requires Inv(f, v) && !f.aborted && HelperReady(f) && f.helper.Queued?
    ensures HelperAlone(f, n) == Helped(f)
  {
    HelperStatus(f, v);
    TaskPublishes(f);
    n := 3;
    if f.status.AbandonedFinalSuspended? {
      HelperExtend(f, 3, f.(helper := HelperDestroy), Helped(f));
      n := 4;
    }
  }
}
