/** What the awaiting coroutine, the awaited Task and a cancel do when nobody else moves. */
module ContinuationAlone {
  import opened Undisturbed
  import opened Continuation

  function Mover(m: Move): Await -> Await {
    (a: Await) => Next(a, m)
  }

  /** After `n` accesses of the one that makes the move `m`, with nobody else moving. */
  function Alone(a: Await, m: Move, n: nat): Await {
    After(Mover(m), a, n)
  }

  lemma Few(a: Await, m: Move)
    ensures Alone(a, m, 1) == Next(a, m)
    ensures Alone(a, m, 2) == Next(Next(a, m), m)
    ensures Alone(a, m, 3) == Next(Next(Next(a, m), m), m)
  {
    AfterFew(Mover(m), a);
  }

  /** co_await, alone: the coroutine is in the cell, and what it awaits may run. */
  lemma AwaitAlone(a: Await)
    requires a.awaiter.Storing?
    ensures Alone(a, AwaiterStep, 2) == a.(cell := true, maybeBlocked := true, awaiter := Suspended)
    ensures a.task.NotStarted? ==>
              Next(Alone(a, AwaiterStep, 2), TaskStep) == Alone(a, AwaiterStep, 2).(task := Running)
  {
    Few(a, AwaiterStep);
  }

  /** Once resumed, the coroutine clears the cell and goes on. */
  lemma ResumeAlone(a: Await)
    requires a.awaiter.Suspended? && a.resumptions > 0
    ensures Alone(a, AwaiterStep, 3) == a.(cell := false, awaiter := Resumed)
  {
    Few(a, AwaiterStep);
  }

  /** A Task that finishes, alone, resumes the coroutine that it finds in the cell. */
  lemma FinishAlone(a: Await)
    requires a.task.Running?
    ensures Alone(a, TaskStep, 3) ==
              a.(cell := false, task := Finished, resumptions := a.resumptions + if a.cell then 1 else 0)
  {
    Few(a, TaskStep);
  }

  /** A cancel, alone, resumes the coroutine that it finds blocked and in the cell, and otherwise does nothing. */
  lemma CancelAlone(a: Await, c: nat)
    requires Enabled(a, BeginCancel(c))
    ensures Alone(Next(a, BeginCancel(c)), CancelStep(c), 3) ==
              if a.maybeBlocked then a.(cell := false, resumptions := a.resumptions + if a.cell then 1 else 0) else a
  {
    var b := Next(a, BeginCancel(c));
    Few(b, CancelStep(c));
    if a.maybeBlocked {
      var b1 := Goto(a, c, Exchanging);
      assert Next(b, CancelStep(c)) == b1;
      assert a.cancels[c := Idle] == a.cancels;
      if a.cell {
        assert Next(b1, CancelStep(c)) == Goto(a.(cell := false), c, Scheduling);
      }
    } else {
      assert Next(b, CancelStep(c)) == a;
    }
  }
}
