/** What each call of the mutex does when its thread moves alone, whatever the other threads are in the middle of. */
module AsyncMutexAlone {
  import opened Tally
  import opened Undisturbed
  import opened AsyncMutex
  import opened AsyncMutexProof
  import opened AsyncMutexTheorems
  import opened FifoListObject

  /** The mutex, and the coroutines scheduled since the thread moves alone, in order. */
  datatype Lone = Lone(mutex: Mutex, scheduled: seq<nat>)

  function Forward(x: Lone, t: nat, turns: nat): Lone {
    Lone(Next(x.mutex, Step(t, false, turns)),
         x.scheduled + if t < |x.mutex.threads| && Schedules(x.mutex.threads[t]) then [Scheduled(x.mutex.threads[t])]
             else [])
  }

  function Mover(t: nat, turns: nat): Lone -> Lone {
    (x: Lone) => Forward(x, t, turns)
  }

  /** After `n` accesses of thread `t`, with nobody else moving. */
  function Alone(x: Lone, t: nat, turns: nat, n: nat): Lone {
    After(Mover(t, turns), x, n)
  }

  lemma AloneMore(x: Lone, t: nat, turns: nat, a: nat, b: nat)
    ensures Alone(x, t, turns, a + b) == Alone(Alone(x, t, turns, a), t, turns, b)
  {
    AfterMore(Mover(t, turns), x, a, b);
  }

  /** One access more. */
  lemma Extend(x: Lone, t: nat, turns: nat, n: nat, y: Lone, z: Lone)
    requires Alone(x, t, turns, n) == y && Forward(y, t, turns) == z
    ensures Alone(x, t, turns, n + 1) == z
  {
    AloneMore(x, t, turns, n, 1);
    AfterFew(Mover(t, turns), y);
  }

  lemma Once(x: Lone, t: nat, turns: nat, x1: Lone)
    requires Forward(x, t, turns) == x1
    ensures Alone(x, t, turns, 1) == x1
  {
    AfterFew(Mover(t, turns), x);
  }

  lemma Twice(x: Lone, t: nat, turns: nat, x1: Lone, x2: Lone)
    requires Forward(x, t, turns) == x1 && Forward(x1, t, turns) == x2
    ensures Alone(x, t, turns, 2) == x2
  {
    AfterFew(Mover(t, turns), x);
  }

  lemma Thrice(x: Lone, t: nat, turns: nat, x1: Lone, x2: Lone, x3: Lone)
    requires Forward(x, t, turns) == x1 && Forward(x1, t, turns) == x2 && Forward(x2, t, turns) == x3
    ensures Alone(x, t, turns, 3) == x3
  {
    AfterFew(Mover(t, turns), x);
  }

  lemma Chain(x: Lone, t: nat, turns: nat, a: nat, y: Lone, b: nat, z: Lone)
    requires Alone(x, t, turns, a) == y && Alone(y, t, turns, b) == z
    ensures Alone(x, t, turns, a + b) == z
  {
    AloneMore(x, t, turns, a, b);
  }

  /** A call that begins. */
  function Begun(x: Lone, t: nat, call: Call): Lone {
    x.(mutex := Next(x.mutex, Begin(t, call)))
  }

  /** Thread `t` is at `th`. */
  predicate At(x: Lone, t: nat, th: Thread) {
    t < |x.mutex.threads| && x.mutex.threads[t] == th
  }

  /** The mutex `m`, with the thread idle. */
  function Done(m: Mutex, t: nat): Mutex
    requires t < |m.threads|
  {
    With(m, t, IDLE)
  }

  // ---------------------------------------------------------------------
  // await_resume
  // ---------------------------------------------------------------------

  /** The coroutine throws if it is cancelled or finds the mutex cancelled; otherwise it has its guard. */
  function ResumeOutcome(m: Mutex, c: nat): Mutex {
    if c in m.doomed then Become(m, c, Throwing)
    else if m.cancelled then Become(m.(doomed := m.doomed + {c}), c, Throwing)
    else Become(m, c, Guarding)
  }

  lemma Resumes(x: Lone, t: nat, turns: nat, c: nat) returns (n: nat)
    requires At(x, t, IDLE.(pc := ResumeSelf, self := c))
    ensures Alone(x, t, turns, n) == x.(mutex := Done(ResumeOutcome(x.mutex, c), t))
  {
    var m := x.mutex;
    var last := IDLE.(pc := ResumeFinish, self := c);
    if c in m.doomed {
      Once(x, t, turns, x.(mutex := With(m, t, last)));
      Extend(x, t, turns, 1, x.(mutex := With(m, t, last)), x.(mutex := Done(ResumeOutcome(m, c), t)));
      n := 2;
    } else {
      n := ResumesUndoomed(x, t, turns, c);
    }
  }

  lemma ResumesUndoomed(x: Lone, t: nat, turns: nat, c: nat) returns (n: nat)
    requires At(x, t, IDLE.(pc := ResumeSelf, self := c)) && c !in x.mutex.doomed
    ensures Alone(x, t, turns, n) == x.(mutex := Done(ResumeOutcome(x.mutex, c), t))
  {
    var m := x.mutex;
    var last := IDLE.(pc := ResumeFinish, self := c);
    var x1 := x.(mutex := With(m, t, IDLE.(pc := ResumeFlag, self := c)));
    Once(x, t, turns, x1);
    if m.cancelled {
      var x2 := x.(mutex := With(m, t, IDLE.(pc := ResumeMark, self := c)));
      var x3 := x.(mutex := With(m.(doomed := m.doomed + {c}), t, last));
      Extend(x, t, turns, 1, x1, x2);
      Extend(x, t, turns, 2, x2, x3);
      Extend(x, t, turns, 3, x3, x.(mutex := Done(ResumeOutcome(m, c), t)));
      n := 4;
    } else {
      var x2 := x.(mutex := With(m, t, last));
      Extend(x, t, turns, 1, x1, x2);
      Extend(x, t, turns, 2, x2, x.(mutex := Done(ResumeOutcome(m, c), t)));
      n := 3;
    }
  }

  // ---------------------------------------------------------------------
  // lock
  // ---------------------------------------------------------------------

  /** The coroutine owns a free mutex and is scheduled, or joins the end of the wait list. */
  function LockOutcome(x: Lone, c: nat): Lone {
    var m := x.mutex;
    if m.owner == NULL then Lone(Become(m.(owner := c), c, Ready), x.scheduled + [c])
    else x.(mutex := m.(wait := m.wait + [c]))
  }

  function After3(x: Lone, t: nat, c: nat, removed: nat): Lone
    requires t < |x.mutex.threads|
  {
    var y := LockOutcome(x, c);
    y.(mutex := With(y.mutex, t, IDLE.(pc := Back(IDLE.(removed := removed)), removed := removed)))
  }

  lemma LocksFree(x: Lone, t: nat, turns: nat, c: nat, removed: nat)
    requires At(x, t, IDLE.(pc := LockLoad, hand := c, removed := removed)) && x.mutex.owner == NULL
    ensures Alone(x, t, turns, 3) == After3(x, t, c, removed)
  {
    var m, here := x.mutex, IDLE.(hand := c, removed := removed);
    var x1 := x.(mutex := With(m, t, here.(pc := LockCas)));
    var x2 := x.(mutex := With(m.(owner := c), t, here.(pc := LockSchedule)));
    Thrice(x, t, turns, x1, x2, After3(x, t, c, removed));
  }

  lemma LocksOwned(x: Lone, t: nat, turns: nat, c: nat, removed: nat)
    requires At(x, t, IDLE.(pc := LockLoad, hand := c, removed := removed)) && x.mutex.owner != NULL
    ensures Alone(x, t, turns, 3) == After3(x, t, c, removed)
  {
    var m := x.mutex;
    var x1 := x.(mutex := With(m, t, IDLE.(pc := LockEnqueue, hand := c, removed := removed)));
    var x2 := x.(mutex := With(m.(wait := m.wait + [c]), t, IDLE.(pc := LockReload, removed := removed)));
    Thrice(x, t, turns, x1, x2, After3(x, t, c, removed));
  }

  lemma Locks(x: Lone, t: nat, turns: nat, c: nat, removed: nat)
    requires At(x, t, IDLE.(pc := LockLoad, hand := c, removed := removed))
    ensures Alone(x, t, turns, 3) == After3(x, t, c, removed)
  {
    if x.mutex.owner == NULL {
      LocksFree(x, t, turns, c, removed);
    } else {
      LocksOwned(x, t, turns, c, removed);
    }
  }

  // ---------------------------------------------------------------------
  // co_await
  // ---------------------------------------------------------------------

  /** await_suspend: a cancelled coroutine goes on to its exception; any other locks. */
  function SuspendOutcome(x: Lone, c: nat): Lone {
    var m := x.mutex;
    if c in m.doomed then x.(mutex := Become(m, c, Ready))
    else if m.cancelled then x.(mutex := Become(m.(doomed := m.doomed + {c}), c, Ready))
    else LockOutcome(x.(mutex := Become(m, c, Asking)), c)
  }

  lemma SuspendsCancelled(x: Lone, t: nat, turns: nat, c: nat)
    requires At(x, t, IDLE.(pc := SuspendAdvice, self := c)) && c !in x.mutex.doomed && x.mutex.cancelled
    ensures var m := x.mutex;
            Alone(x, t, turns, 3) == x.(mutex := Done(Become(m.(doomed := m.doomed + {c}), c, Ready), t))
  {
    var m := x.mutex;
    Thrice(x, t, turns, x.(mutex := With(m, t, IDLE.(pc := SuspendFlag, self := c))),
           x.(mutex := With(m, t, IDLE.(pc := SuspendMark, self := c))),
           x.(mutex := Done(Become(m.(doomed := m.doomed + {c}), c, Ready), t)));
  }

  /** The coroutine has passed itself to lock. */
  function AskedFor(x: Lone, t: nat, c: nat): Lone
    requires t < |x.mutex.threads|
  {
    x.(mutex := With(Become(x.mutex, c, Asking), t, IDLE.(pc := LockLoad, hand := c)))
  }

  lemma SuspendsAsking(x: Lone, t: nat, turns: nat, c: nat)
    requires At(x, t, IDLE.(pc := SuspendAdvice, self := c)) && c !in x.mutex.doomed && !x.mutex.cancelled
    ensures Alone(x, t, turns, 2) == AskedFor(x, t, c)
  {
    Twice(x, t, turns, x.(mutex := With(x.mutex, t, IDLE.(pc := SuspendFlag, self := c))), AskedFor(x, t, c));
  }

  lemma AsksAndLocks(x: Lone, t: nat, turns: nat, c: nat)
    requires At(x, t, IDLE.(pc := SuspendAdvice, self := c)) && c !in x.mutex.doomed && !x.mutex.cancelled
    ensures |SuspendOutcome(x, c).mutex.threads| == |x.mutex.threads|
    ensures Alone(x, t, turns, 5) == SuspendOutcome(x, c).(mutex := Done(SuspendOutcome(x, c).mutex, t))
  {
    SuspendsAsking(x, t, turns, c);
    var x2 := AskedFor(x, t, c);
    Locks(x2, t, turns, c, NULL);
    AloneMore(x, t, turns, 2, 3);
    SameLock(x2, x.(mutex := Become(x.mutex, c, Asking)), t, c);
  }

  lemma Suspends(x: Lone, t: nat, turns: nat, c: nat) returns (n: nat)
    requires At(x, t, IDLE.(pc := SuspendAdvice, self := c)) && c != NULL
    ensures |SuspendOutcome(x, c).mutex.threads| == |x.mutex.threads|
    ensures Alone(x, t, turns, n) == SuspendOutcome(x, c).(mutex := Done(SuspendOutcome(x, c).mutex, t))
  {
    if c in x.mutex.doomed {
      Once(x, t, turns, x.(mutex := Done(Become(x.mutex, c, Ready), t)));
      n := 1;
    } else if x.mutex.cancelled {
      SuspendsCancelled(x, t, turns, c);
      n := 3;
    } else {
      AsksAndLocks(x, t, turns, c);
      n := 5;
    }
  }

  /** A thread's locals are nothing to the outcome. */
  lemma SameLock(x: Lone, y: Lone, t: nat, c: nat)
    requires t < |y.mutex.threads| == |x.mutex.threads| && x == y.(mutex := With(y.mutex, t, x.mutex.threads[t]))
    ensures |LockOutcome(y, c).mutex.threads| == |y.mutex.threads|
    ensures LockOutcome(x, c).scheduled == LockOutcome(y, c).scheduled
    ensures Done(LockOutcome(x, c).mutex, t) == Done(LockOutcome(y, c).mutex, t)
  {
    assert x.mutex.threads[t := IDLE] == y.mutex.threads[t := IDLE];
  }

  /** co_await with the advice to look first. */
  function AwaitOutcome(x: Lone, c: nat): Lone {
    var m := x.mutex;
    if m.cancelled then x.(mutex := ResumeOutcome(m, c))
    else if m.owner == NULL then x.(mutex := ResumeOutcome(m.(owner := c), c))
    else SuspendOutcome(x, c)
  }

  lemma AwaitsCancelled(x: Lone, t: nat, turns: nat, c: nat) returns (n: nat)
    requires At(x, t, IDLE.(pc := ReadyFlag, self := c)) && x.mutex.cancelled
    ensures Alone(x, t, turns, n) == x.(mutex := Done(ResumeOutcome(x.mutex, c), t))
  {
    var m := x.mutex;
    var x1 := x.(mutex := With(Become(m, c, Resuming), t, IDLE.(pc := ResumeSelf, self := c)));
    Once(x, t, turns, x1);
    n := Resumes(x1, t, turns, c);
    AloneMore(x, t, turns, 1, n);
    n := n + 1;
    SameResume(m, x1.mutex, t, c);
  }

  lemma SameResume(m: Mutex, m': Mutex, t: nat, c: nat)
    requires t < |m.threads| == |m'.threads|
    requires m' == With(Become(m, c, Resuming), t, m'.threads[t])
    ensures Done(ResumeOutcome(m', c), t) == Done(ResumeOutcome(m, c), t)
  {
    forall p: Phase
      ensures Become(m', c, p).phases == Become(m, c, p).phases
    {
      assert m.phases[c := Resuming][c := p] == m.phases[c := p];
    }
    assert m'.threads[t := IDLE] == m.threads[t := IDLE];
  }

  lemma AwaitsFree(x: Lone, t: nat, turns: nat, c: nat) returns (n: nat)
    requires At(x, t, IDLE.(pc := ReadyFlag, self := c)) && !x.mutex.cancelled && x.mutex.owner == NULL
    ensures Alone(x, t, turns, n) == x.(mutex := Done(ResumeOutcome(x.mutex.(owner := c), c), t))
  {
    var m := x.mutex;
    var x1 := x.(mutex := Goto(m, t, TryLoad));
    var x2 := x.(mutex := Goto(m, t, TryCas));
    var x3 := x.(mutex := With(Become(m.(owner := c), c, Resuming), t, IDLE.(pc := ResumeSelf, self := c)));
    Thrice(x, t, turns, x1, x2, x3);
    n := Resumes(x3, t, turns, c);
    AloneMore(x, t, turns, 3, n);
    n := n + 3;
    SameResume(m.(owner := c), x3.mutex, t, c);
  }

  lemma AwaitsOwned(x: Lone, t: nat, turns: nat, c: nat) returns (n: nat)
    requires At(x, t, IDLE.(pc := ReadyFlag, self := c)) && !x.mutex.cancelled && x.mutex.owner != NULL && c != NULL
    ensures |SuspendOutcome(x, c).mutex.threads| == |x.mutex.threads|
    ensures Alone(x, t, turns, n) == SuspendOutcome(x, c).(mutex := Done(SuspendOutcome(x, c).mutex, t))
  {
    var x1 := x.(mutex := Goto(x.mutex, t, TryLoad));
    var x2 := x.(mutex := Goto(x.mutex, t, SuspendAdvice));
    Twice(x, t, turns, x1, x2);
    n := Suspends(x2, t, turns, c);
    AloneMore(x, t, turns, 2, n);
    n := n + 2;
    SameSuspend(x2, x, t, c);
  }

  lemma SameSuspend(x: Lone, y: Lone, t: nat, c: nat)
    requires t < |y.mutex.threads| == |x.mutex.threads| && x == y.(mutex := With(y.mutex, t, x.mutex.threads[t]))
    ensures |SuspendOutcome(y, c).mutex.threads| == |SuspendOutcome(x, c).mutex.threads| == |y.mutex.threads|
    ensures SuspendOutcome(x, c).(mutex := Done(SuspendOutcome(x, c).mutex, t))
         == SuspendOutcome(y, c).(mutex := Done(SuspendOutcome(y, c).mutex, t))
  {
    assert x.mutex.threads[t := IDLE] == y.mutex.threads[t := IDLE];
    if c !in x.mutex.doomed && !x.mutex.cancelled {
      SameLock(x.(mutex := Become(x.mutex, c, Asking)), y.(mutex := Become(y.mutex, c, Asking)), t, c);
    }
  }

  // ---------------------------------------------------------------------
  // The loops that empty the wait list
  // ---------------------------------------------------------------------

  function Elements(q: seq<nat>): set<nat> {
    set c | c in q
  }

  function Readied(phases: map<nat, Phase>, q: seq<nat>): map<nat, Phase> {
    map c | c in phases.Keys + Elements(q) :: if c in q then Ready else phases[c]
  }

  /** Every waiter is marked as cancelled and scheduled, in order. */
  function Emptied(x: Lone): Lone {
    var m := x.mutex;
    Lone(m.(wait := [], doomed := m.doomed + Elements(m.wait), phases := Readied(m.phases, m.wait)),
         x.scheduled + m.wait)
  }

  /** What one turn of the loop leaves. */
  function FirstDropped(x: Lone): Lone
    requires x.mutex.wait != []
  {
    var m, c := x.mutex, x.mutex.wait[0];
    Lone(Become(m.(wait := m.wait[1..], doomed := m.doomed + {c}), c, Ready), x.scheduled + [c])
  }

  lemma EmptiedAgain(x: Lone)
    requires x.mutex.wait != []
    ensures Emptied(FirstDropped(x)) == Emptied(x)
  {
    var q := x.mutex.wait;
    assert q == [q[0]] + q[1..];
    assert Elements(q) == {q[0]} + Elements(q[1..]);
    assert Readied(x.mutex.phases[q[0] := Ready], q[1..]) == Readied(x.mutex.phases, q);
    assert x.scheduled + [q[0]] + q[1..] == x.scheduled + q;
  }

  lemma NothingToEmpty(x: Lone)
    requires x.mutex.wait == []
    ensures Emptied(x) == x
  {
    assert Readied(x.mutex.phases, []) == x.mutex.phases;
  }

  /** The first two accesses of a turn: a waiter is taken out and marked. */
  function Marked(x: Lone, t: nat, th: Thread, pc: Pc): Lone
    requires t < |x.mutex.threads| && x.mutex.wait != []
  {
    var m, c := x.mutex, x.mutex.wait[0];
    x.(mutex := With(m.(wait := m.wait[1..], doomed := m.doomed + {c}), t, th.(pc := pc, hand := c)))
  }

  lemma DrainMarks(x: Lone, t: nat, turns: nat)
    requires At(x, t, IDLE.(pc := Drain)) && x.mutex.wait != []
    ensures Alone(x, t, turns, 2) == Marked(x, t, IDLE, DrainSchedule)
  {
    var m, c := x.mutex, x.mutex.wait[0];
    var x1 := x.(mutex := With(m.(wait := m.wait[1..]), t, IDLE.(pc := DrainDrop, hand := c)));
    Twice(x, t, turns, x1, Marked(x, t, IDLE, DrainSchedule));
  }

  lemma DrainTurn(x: Lone, t: nat, turns: nat)
    requires At(x, t, IDLE.(pc := Drain)) && x.mutex.wait != []
    ensures Alone(x, t, turns, 3) == FirstDropped(x)
  {
    DrainMarks(x, t, turns);
    var x2 := Marked(x, t, IDLE, DrainSchedule);
    assert x2.mutex.threads[t := IDLE.(pc := Drain)] == x.mutex.threads;
    Extend(x, t, turns, 2, x2, FirstDropped(x));
  }

  function Drained(x: Lone, t: nat, th: Thread): Lone
    requires t < |x.mutex.threads|
  {
    Emptied(x).(mutex := With(Emptied(x).mutex, t, th))
  }

  lemma DrainedAgain(x: Lone, t: nat, th: Thread)
    requires t < |x.mutex.threads| && x.mutex.wait != []
    ensures Drained(FirstDropped(x), t, th) == Drained(x, t, th)
  {
    EmptiedAgain(x);
  }

  /** A loop whose turns drop the first waiter, and which ends with the thread at `last`, drops them all. */
  lemma {:induction false} LoopDrains(advance: Lone -> Lone, x: Lone, t: nat, here: Thread, last: Thread)
    requires At(x, t, here)
    requires forall y {:trigger At(y, t, here)} :: At(y, t, here) ==>
               if y.mutex.wait == [] then After(advance, y, 1) == Drained(y, t, last)
               else After(advance, y, 3) == FirstDropped(y)
    ensures After(advance, x, 3 * |x.mutex.wait| + 1) == Drained(x, t, last)
    decreases |x.mutex.wait|
  {
    if x.mutex.wait != [] {
      var x1 := FirstDropped(x);
      assert At(x1, t, here);
      LoopDrains(advance, x1, t, here, last);
      DrainedAgain(x, t, last);
      AfterMore(advance, x, 3, 3 * |x1.mutex.wait| + 1);
    }
  }

  lemma DrainEnds(x: Lone, t: nat, turns: nat)
    requires At(x, t, IDLE.(pc := Drain)) && x.mutex.wait == []
    ensures Alone(x, t, turns, 1) == Drained(x, t, IDLE)
  {
    NothingToEmpty(x);
    Once(x, t, turns, x.(mutex := Done(x.mutex, t)));
  }

  lemma Drains(x: Lone, t: nat, turns: nat)
    requires At(x, t, IDLE.(pc := Drain))
    ensures Alone(x, t, turns, 3 * |x.mutex.wait| + 1) == Drained(x, t, IDLE)
  {
    var here := IDLE.(pc := Drain);
    forall y {:trigger At(y, t, here)} | At(y, t, here)
      ensures if y.mutex.wait == [] then After(Mover(t, turns), y, 1) == Drained(y, t, IDLE)
              else After(Mover(t, turns), y, 3) == FirstDropped(y)
    {
      if y.mutex.wait == [] {
        DrainEnds(y, t, turns);
      } else {
        DrainTurn(y, t, turns);
      }
    }
    LoopDrains(Mover(t, turns), x, t, here, IDLE);
  }

  lemma OwnerMarks(x: Lone, t: nat, turns: nat, self: nat)
    requires At(x, t, IDLE.(pc := OwnerDrain, self := self)) && x.mutex.wait != []
    ensures Alone(x, t, turns, 2) == Marked(x, t, IDLE.(self := self), OwnerSchedule)
  {
    var m, c := x.mutex, x.mutex.wait[0];
    var x1 := x.(mutex := With(m.(wait := m.wait[1..]), t, IDLE.(pc := OwnerDrop, self := self, hand := c)));
    Twice(x, t, turns, x1, Marked(x, t, IDLE.(self := self), OwnerSchedule));
  }

  lemma OwnerTurn(x: Lone, t: nat, turns: nat, self: nat)
    requires At(x, t, IDLE.(pc := OwnerDrain, self := self)) && x.mutex.wait != []
    ensures Alone(x, t, turns, 3) == FirstDropped(x)
  {
    OwnerMarks(x, t, turns, self);
    var x2 := Marked(x, t, IDLE.(self := self), OwnerSchedule);
    assert x2.mutex.threads[t := IDLE.(pc := OwnerDrain, self := self)] == x.mutex.threads;
    Extend(x, t, turns, 2, x2, FirstDropped(x));
  }

  lemma OwnerDrainEnds(x: Lone, t: nat, turns: nat, self: nat)
    requires At(x, t, IDLE.(pc := OwnerDrain, self := self)) && x.mutex.wait == []
    ensures Alone(x, t, turns, 1) == Drained(x, t, IDLE.(pc := OwnerRelease, self := self))
  {
    NothingToEmpty(x);
    Once(x, t, turns, x.(mutex := Goto(x.mutex, t, OwnerRelease)));
  }

  lemma OwnerDrains(x: Lone, t: nat, turns: nat, self: nat)
    requires At(x, t, IDLE.(pc := OwnerDrain, self := self))
    ensures Alone(x, t, turns, 3 * |x.mutex.wait| + 1) == Drained(x, t, IDLE.(pc := OwnerRelease, self := self))
  {
    var here, last := IDLE.(pc := OwnerDrain, self := self), IDLE.(pc := OwnerRelease, self := self);
    forall y {:trigger At(y, t, here)} | At(y, t, here)
      ensures if y.mutex.wait == [] then After(Mover(t, turns), y, 1) == Drained(y, t, last)
              else After(Mover(t, turns), y, 3) == FirstDropped(y)
    {
      if y.mutex.wait == [] {
        OwnerDrainEnds(y, t, turns, self);
      } else {
        OwnerTurn(y, t, turns, self);
      }
    }
    LoopDrains(Mover(t, turns), x, t, here, last);
  }

  // ---------------------------------------------------------------------
  // unlock and cancel
  // ---------------------------------------------------------------------

  /** A coroutine that does not own the mutex only learns of its cancellation. */
  lemma UnlocksOther(x: Lone, t: nat, turns: nat, c: nat) returns (n: nat)
    requires At(x, t, IDLE.(pc := UnlockLoad, self := c)) && x.mutex.owner != c
    ensures var m := x.mutex;
            Alone(x, t, turns, n) ==
              x.(mutex := Done(Become(m.(doomed := if m.cancelled then m.doomed + {c} else m.doomed), c, Out), t))
  {
    var m := x.mutex;
    var x1 := x.(mutex := Goto(m, t, UnlockOther));
    Once(x, t, turns, x1);
    if m.cancelled {
      var x2 := x.(mutex := Goto(m, t, UnlockMark));
      Extend(x, t, turns, 1, x1, x2);
      Extend(x, t, turns, 2, x2, x.(mutex := Done(Become(m.(doomed := m.doomed + {c}), c, Out), t)));
      n := 3;
    } else {
      Extend(x, t, turns, 1, x1, x.(mutex := Done(Become(m, c, Out), t)));
      n := 2;
    }
  }

  /** The owner's first two accesses. */
  lemma OwnerBegins(x: Lone, t: nat, turns: nat, c: nat)
    requires At(x, t, IDLE.(pc := UnlockLoad, self := c)) && x.mutex.owner == c
    ensures Alone(x, t, turns, 2)
         == x.(mutex := Goto(x.mutex, t, if x.mutex.cancelled then OwnerMark else UnlockDequeue))
  {
    var x1 := x.(mutex := Goto(x.mutex, t, UnlockFlag));
    Twice(x, t, turns, x1, x.(mutex := Goto(x.mutex, t, if x.mutex.cancelled then OwnerMark else UnlockDequeue)));
  }

  /** The mutex after its owner `c`, whose guard is gone, has handed on to the first waiter or to nobody. */
  function HandedOn(x: Lone, c: nat): Lone {
    var m := x.mutex;
    if m.wait == [] then x.(mutex := Become(m.(owner := NULL), c, Out))
    else Lone(Become(Become(m.(owner := m.wait[0], wait := m.wait[1..]), c, Out), m.wait[0], Ready),
              x.scheduled + [m.wait[0]])
  }

  lemma UnlockFrees(x: Lone, t: nat, turns: nat, c: nat)
    requires At(x, t, IDLE.(pc := UnlockDequeue, self := c)) && x.mutex.wait == []
    ensures Alone(x, t, turns, 3) == x.(mutex := Done(HandedOn(x, c).mutex, t))
  {
    var m := x.mutex;
    var x1 := x.(mutex := Goto(m, t, Release));
    var x2 := x.(mutex := With(Become(m.(owner := NULL), c, Out), t, IDLE.(pc := UnlockRetry)));
    Thrice(x, t, turns, x1, x2, x.(mutex := Done(HandedOn(x, c).mutex, t)));
  }

  /** The first waiter owns the mutex and is about to be scheduled. */
  function Given(x: Lone, t: nat, c: nat): Lone
    requires t < |x.mutex.threads| && x.mutex.wait != []
  {
    var m, next := x.mutex, x.mutex.wait[0];
    x.(mutex := With(Become(m.(owner := next, wait := m.wait[1..]), c, Out), t,
                     IDLE.(pc := LockSchedule, hand := next)))
  }

  lemma UnlockGives(x: Lone, t: nat, turns: nat, c: nat)
    requires At(x, t, IDLE.(pc := UnlockDequeue, self := c)) && x.mutex.wait != []
    ensures Alone(x, t, turns, 2) == Given(x, t, c)
  {
    var m, next := x.mutex, x.mutex.wait[0];
    var x1 := x.(mutex := With(m.(wait := m.wait[1..]), t, IDLE.(pc := HandOver, self := c, hand := next)));
    Twice(x, t, turns, x1, Given(x, t, c));
  }

  lemma GivenScheduled(x: Lone, t: nat, turns: nat, c: nat)
    requires t < |x.mutex.threads| && x.mutex.wait != []
    ensures Alone(Given(x, t, c), t, turns, 1) == HandedOn(x, c).(mutex := Done(HandedOn(x, c).mutex, t))
  {
    var y := Given(x, t, c);
    assert y.mutex.threads[t := IDLE] == x.mutex.threads[t := IDLE];
    Extend(y, t, turns, 0, y, HandedOn(x, c).(mutex := Done(HandedOn(x, c).mutex, t)));
  }

  lemma UnlockHandsOn(x: Lone, t: nat, turns: nat, c: nat)
    requires At(x, t, IDLE.(pc := UnlockDequeue, self := c))
    ensures Alone(x, t, turns, 3) == HandedOn(x, c).(mutex := Done(HandedOn(x, c).mutex, t))
  {
    if x.mutex.wait == [] {
      UnlockFrees(x, t, turns, c);
    } else {
      UnlockGives(x, t, turns, c);
      GivenScheduled(x, t, turns, c);
      Chain(x, t, turns, 2, Given(x, t, c), 1, HandedOn(x, c).(mutex := Done(HandedOn(x, c).mutex, t)));
    }
  }

  /** The mutex after the owner of a cancelled mutex has marked and scheduled every waiter and let go. */
  function LetGo(x: Lone, c: nat): Lone {
    var y := Emptied(x.(mutex := x.mutex.(doomed := x.mutex.doomed + {c})));
    y.(mutex := Become(y.mutex.(owner := NULL), c, Out))
  }

  lemma OwnerReleases(x: Lone, t: nat, turns: nat, c: nat)
    requires At(x, t, IDLE.(pc := OwnerRelease, self := c)) && x.mutex.wait == []
    ensures Alone(x, t, turns, 2) == x.(mutex := Done(Become(x.mutex.(owner := NULL), c, Out), t))
  {
    var x1 := x.(mutex := With(Become(x.mutex.(owner := NULL), c, Out), t, IDLE.(pc := Drain)));
    Twice(x, t, turns, x1, x.(mutex := Done(Become(x.mutex.(owner := NULL), c, Out), t)));
  }

  function OwnerMarked(x: Lone, t: nat, c: nat): Lone
    requires t < |x.mutex.threads|
  {
    var m := x.mutex;
    x.(mutex := With(m.(doomed := m.doomed + {c}), t, IDLE.(pc := OwnerDrain, self := c)))
  }

  lemma MarksOwner(x: Lone, t: nat, turns: nat, c: nat)
    requires At(x, t, IDLE.(pc := OwnerMark, self := c))
    ensures Alone(x, t, turns, 1) == OwnerMarked(x, t, c)
  {
    Once(x, t, turns, OwnerMarked(x, t, c));
  }

  lemma MarksAndDrains(x: Lone, t: nat, turns: nat, c: nat) returns (n: nat)
    requires At(x, t, IDLE.(pc := OwnerMark, self := c))
    ensures Alone(x, t, turns, n) == Drained(OwnerMarked(x, t, c), t, IDLE.(pc := OwnerRelease, self := c))
  {
    var x1 := OwnerMarked(x, t, c);
    MarksOwner(x, t, turns, c);
    OwnerDrains(x1, t, turns, c);
    n := 3 * |x.mutex.wait| + 1;
    Chain(x, t, turns, 1, x1, n, Drained(x1, t, IDLE.(pc := OwnerRelease, self := c)));
    n := n + 1;
  }

  lemma LetsGoLast(x: Lone, t: nat, turns: nat, c: nat, n: nat)
    requires t < |x.mutex.threads|
    requires Alone(x, t, turns, n) == Drained(OwnerMarked(x, t, c), t, IDLE.(pc := OwnerRelease, self := c))
    ensures Alone(x, t, turns, n + 2) == LetGo(x, c).(mutex := Done(LetGo(x, c).mutex, t))
  {
    LastOfDrained(x, t, turns, c);
    AloneMore(x, t, turns, n, 2);
  }

  lemma UnlockLetsGo(x: Lone, t: nat, turns: nat, c: nat) returns (n: nat)
    requires At(x, t, IDLE.(pc := OwnerMark, self := c))
    ensures Alone(x, t, turns, n) == LetGo(x, c).(mutex := Done(LetGo(x, c).mutex, t))
  {
    n := MarksAndDrains(x, t, turns, c);
    LetsGoLast(x, t, turns, c, n);
    n := n + 2;
  }

  lemma LastOfDrained(x: Lone, t: nat, turns: nat, c: nat)
    requires t < |x.mutex.threads|
    ensures Alone(Drained(OwnerMarked(x, t, c), t, IDLE.(pc := OwnerRelease, self := c)), t, turns, 2)
         == LetGo(x, c).(mutex := Done(LetGo(x, c).mutex, t))
  {
    var x1 := OwnerMarked(x, t, c);
    OwnerReleases(Drained(x1, t, IDLE.(pc := OwnerRelease, self := c)), t, turns, c);
    SameThreads(x.(mutex := x.mutex.(doomed := x.mutex.doomed + {c})), x1, t, c);
  }

  lemma SameThreads(x: Lone, x1: Lone, t: nat, c: nat)
    requires t < |x.mutex.threads| == |x1.mutex.threads|
    requires x1 == x.(mutex := With(x.mutex, t, x1.mutex.threads[t]))
    ensures var y, y1 := Emptied(x), Drained(x1, t, IDLE.(pc := OwnerRelease, self := c));
            && y1.scheduled == y.scheduled
            && Done(Become(y1.mutex.(owner := NULL), c, Out), t) == Done(Become(y.mutex.(owner := NULL), c, Out), t)
  {
    var y1 := Drained(x1, t, IDLE.(pc := OwnerRelease, self := c));
    assert y1.mutex.threads[t := IDLE] == x.mutex.threads[t := IDLE];
  }

  /** What unlock makes of the mutex. */
  function UnlockOutcome(x: Lone, c: nat): Lone {
    var m := x.mutex;
    if m.owner != c then
      x.(mutex := Become(m.(doomed := if m.cancelled then m.doomed + {c} else m.doomed), c, Out))
    else if m.cancelled then LetGo(x, c)
    else HandedOn(x, c)
  }

  lemma Unlocks(x: Lone, t: nat, turns: nat, c: nat) returns (n: nat)
    requires At(x, t, IDLE.(pc := UnlockLoad, self := c))
    ensures |UnlockOutcome(x, c).mutex.threads| == |x.mutex.threads|
    ensures Alone(x, t, turns, n) == UnlockOutcome(x, c).(mutex := Done(UnlockOutcome(x, c).mutex, t))
  {
    if x.mutex.owner != c {
      n := UnlocksOther(x, t, turns, c);
    } else {
      OwnerBegins(x, t, turns, c);
      var x1 := x.(mutex := Goto(x.mutex, t, if x.mutex.cancelled then OwnerMark else UnlockDequeue));
      if x.mutex.cancelled {
        n := UnlockLetsGo(x1, t, turns, c);
      } else {
        n := 3;
        UnlockHandsOn(x1, t, turns, c);
      }
      SameUnlock(x1, x, t, c);
      Chain(x, t, turns, 2, x1, n, UnlockOutcome(x, c).(mutex := Done(UnlockOutcome(x, c).mutex, t)));
      n := n + 2;
    }
  }

  lemma SameUnlock(x: Lone, y: Lone, t: nat, c: nat)
    requires t < |y.mutex.threads| == |x.mutex.threads| && x == y.(mutex := With(y.mutex, t, x.mutex.threads[t]))
    ensures |UnlockOutcome(y, c).mutex.threads| == |UnlockOutcome(x, c).mutex.threads| == |y.mutex.threads|
    ensures UnlockOutcome(x, c).(mutex := Done(UnlockOutcome(x, c).mutex, t))
         == UnlockOutcome(y, c).(mutex := Done(UnlockOutcome(y, c).mutex, t))
  {
    assert x.mutex.threads[t := IDLE] == y.mutex.threads[t := IDLE];
  }

  // ---------------------------------------------------------------------
  // remove
  // ---------------------------------------------------------------------

  /** Remove is about to take the next waiter out, with `left` turns to go. */
  function Taking(target: nat, left: nat): Thread {
    IDLE.(pc := RemoveTake, target := target, left := left)
  }

  /** What one turn leaves: the first waiter goes to the end. */
  function Turned(x: Lone, t: nat, target: nat, left: nat): Lone
    requires t < |x.mutex.threads| && left > 0 && x.mutex.wait != []
  {
    var m := x.mutex;
    x.(mutex := With(m.(wait := m.wait[1..] + [m.wait[0]]), t, Taking(target, left - 1)))
  }

  lemma RemoveTurn(x: Lone, t: nat, turns: nat, target: nat, left: nat)
    requires At(x, t, Taking(target, left)) && left > 0 && x.mutex.wait != [] && x.mutex.wait[0] != target
    ensures Alone(x, t, turns, 2) == Turned(x, t, target, left)
  {
    var m := x.mutex;
    var th := IDLE.(pc := RemovePut, target := target, hand := m.wait[0], left := left - 1);
    Twice(x, t, turns, x.(mutex := With(m.(wait := m.wait[1..]), t, th)), Turned(x, t, target, left));
  }

  /** The mutex when the list's remove has returned. */
  function Rotated(x: Lone, t: nat, target: nat, left: nat): Lone
    requires t < |x.mutex.threads|
  {
    var (found, rest) := RemoveFrom(x.mutex.wait, target, left);
    x.(mutex := With(x.mutex.(wait := rest), t, IDLE.(pc := RemoveCheck, removed := if found then target else NULL)))
  }

  lemma RotatesLast(x: Lone, t: nat, turns: nat, target: nat, left: nat)
    requires At(x, t, Taking(target, left)) && (left == 0 || x.mutex.wait == [] || x.mutex.wait[0] == target)
    ensures Alone(x, t, turns, 1) == Rotated(x, t, target, left)
  {
    Once(x, t, turns, Rotated(x, t, target, left));
  }

  /** A loop with such turns is the rotation. */
  lemma {:induction false} LoopRotates(advance: Lone -> Lone, x: Lone, t: nat, target: nat, left: nat) returns (n: nat)
    requires At(x, t, Taking(target, left))
    requires forall y, k: nat {:trigger At(y, t, Taking(target, k))} :: At(y, t, Taking(target, k)) ==>
               if k == 0 || y.mutex.wait == [] || y.mutex.wait[0] == target
               then After(advance, y, 1) == Rotated(y, t, target, k)
               else After(advance, y, 2) == Turned(y, t, target, k)
    ensures After(advance, x, n) == Rotated(x, t, target, left)
    decreases left
  {
    if left == 0 || x.mutex.wait == [] || x.mutex.wait[0] == target {
      n := 1;
    } else {
      var x1 := Turned(x, t, target, left);
      assert At(x1, t, Taking(target, left - 1));
      n := LoopRotates(advance, x1, t, target, left - 1);
      AfterMore(advance, x, 2, n);
      n := n + 2;
    }
  }

  /** The rotation of remove, whatever bound it has computed. */
  lemma Rotates(x: Lone, t: nat, turns: nat, target: nat, left: nat) returns (n: nat)
    requires At(x, t, Taking(target, left))
    ensures Alone(x, t, turns, n) == Rotated(x, t, target, left)
  {
    forall y, k: nat {:trigger At(y, t, Taking(target, k))} | At(y, t, Taking(target, k))
      ensures if k == 0 || y.mutex.wait == [] || y.mutex.wait[0] == target
              then After(Mover(t, turns), y, 1) == Rotated(y, t, target, k)
              else After(Mover(t, turns), y, 2) == Turned(y, t, target, k)
    {
      if k == 0 || y.mutex.wait == [] || y.mutex.wait[0] == target {
        RotatesLast(y, t, turns, target, k);
      } else {
        RemoveTurn(y, t, turns, target, k);
      }
    }
    n := LoopRotates(Mover(t, turns), x, t, target, left);
  }

  /** A mutex without owner goes to the first waiter, who is scheduled. */
  function Repaired(x: Lone): Lone {
    if x.mutex.owner != NULL || x.mutex.wait == [] then x
    else LockOutcome(x.(mutex := x.mutex.(wait := x.mutex.wait[1..])), x.mutex.wait[0])
  }

  /** What follows the rotation: the repair, and the schedule of the coroutine that was found. */
  lemma RepairsAndSchedules(x: Lone, t: nat, turns: nat, c: nat) returns (n: nat)
    requires At(x, t, IDLE.(pc := RemoveCheck, removed := c))
    ensures var y := Repaired(x);
            && |y.mutex.threads| == |x.mutex.threads|
            && Alone(x, t, turns, n) ==
               if c == NULL then y.(mutex := Done(y.mutex, t))
               else Lone(Done(Become(y.mutex, c, Ready), t), y.scheduled + [c])
  {
    n := Repairs(x, t, turns, c);
    var y := Repaired(x);
    var back := IDLE.(pc := Back(IDLE.(removed := c)), removed := c);
    var y1 := y.(mutex := With(y.mutex, t, back));
    if c != NULL {
      assert y1.mutex.threads[t := IDLE] == y.mutex.threads[t := IDLE];
      var z := Lone(Done(Become(y.mutex, c, Ready), t), y.scheduled + [c]);
      Once(y1, t, turns, z);
      Chain(x, t, turns, n, y1, 1, z);
      n := n + 1;
    }
  }

  /** The thread goes on to where remove returns. */
  function Returning(y: Lone, t: nat, c: nat): Lone
    requires t < |y.mutex.threads|
  {
    y.(mutex := With(y.mutex, t, IDLE.(pc := Back(IDLE.(removed := c)), removed := c)))
  }

  lemma Repairs(x: Lone, t: nat, turns: nat, c: nat) returns (n: nat)
    requires At(x, t, IDLE.(pc := RemoveCheck, removed := c))
    ensures |Repaired(x).mutex.threads| == |x.mutex.threads|
    ensures Alone(x, t, turns, n) == Returning(Repaired(x), t, c)
  {
    if x.mutex.owner != NULL {
      n := 1;
      Once(x, t, turns, Returning(x, t, c));
    } else if x.mutex.wait == [] {
      n := 2;
      Twice(x, t, turns, x.(mutex := Goto(x.mutex, t, RemoveDequeue)), Returning(x, t, c));
    } else {
      n := 5;
      RepairBegins(x, t, turns, c);
      var m, next := x.mutex, x.mutex.wait[0];
      var y := x.(mutex := m.(wait := m.wait[1..]));
      var x2 := x.(mutex := With(y.mutex, t, IDLE.(pc := LockLoad, hand := next, removed := c)));
      Locks(x2, t, turns, next, c);
      Chain(x, t, turns, 2, x2, 3, After3(x2, t, next, c));
      SameAfter3(x2, y, t, next, c);
    }
  }

  lemma SameAfter3(x: Lone, y: Lone, t: nat, next: nat, c: nat)
    requires t < |y.mutex.threads| == |x.mutex.threads| && x == y.(mutex := With(y.mutex, t, x.mutex.threads[t]))
    ensures |LockOutcome(y, next).mutex.threads| == |y.mutex.threads|
    ensures After3(x, t, next, c) == Returning(LockOutcome(y, next), t, c)
  {
    var back := IDLE.(pc := Back(IDLE.(removed := c)), removed := c);
    assert x.mutex.threads[t := back] == y.mutex.threads[t := back];
  }

  lemma RepairBegins(x: Lone, t: nat, turns: nat, c: nat)
    requires At(x, t, IDLE.(pc := RemoveCheck, removed := c)) && x.mutex.owner == NULL && x.mutex.wait != []
    ensures var m := x.mutex;
            Alone(x, t, turns, 2) ==
              x.(mutex := With(m.(wait := m.wait[1..]), t, IDLE.(pc := LockLoad, hand := m.wait[0], removed := c)))
  {
    var m := x.mutex;
    Twice(x, t, turns, x.(mutex := Goto(m, t, RemoveDequeue)),
        x.(mutex := With(m.(wait := m.wait[1..]), t, IDLE.(pc := LockLoad, hand := m.wait[0], removed := c))));
  }

  // ---------------------------------------------------------------------
  // The calls
  // ---------------------------------------------------------------------

  /** The thread runs the coroutine's code, which has set its phase. */
  ghost predicate Entered(x: Lone, y: Lone, t: nat, c: nat) {
    && t < |x.mutex.threads| == |y.mutex.threads| && x.mutex.threads[t] == IDLE
    && y.scheduled == x.scheduled
    && y.mutex == x.mutex.(phases := y.mutex.phases, threads := y.mutex.threads)
    && y.mutex.threads[t := IDLE] == x.mutex.threads
    && forall p: Phase {:trigger y.mutex.phases[c := p]} :: y.mutex.phases[c := p] == x.mutex.phases[c := p]
  }

  lemma Enters(x: Lone, t: nat, call: Call, c: nat)
    requires Enabled(x.mutex, Begin(t, call))
    requires call == Await(c) || call == AwaitSuspended(c) || call == Resume(c) || call == Unlock(c)
    ensures Entered(x, Begun(x, t, call), t, c)
    ensures Begun(x, t, call).mutex.threads[t].self == c
  {
  }

  lemma SameOnEntry(x: Lone, y: Lone, t: nat, c: nat)
    requires Entered(x, y, t, c)
    ensures |SuspendOutcome(y, c).mutex.threads| == |x.mutex.threads|
    ensures Done(ResumeOutcome(y.mutex, c), t) == ResumeOutcome(x.mutex, c)
    ensures SuspendOutcome(y, c).(mutex := Done(SuspendOutcome(y, c).mutex, t)) == SuspendOutcome(x, c)
  {
    if x.mutex.owner == NULL {
      assert Become(Become(y.mutex, c, Asking), c, Ready).phases == y.mutex.phases[c := Ready];
      assert Become(Become(x.mutex, c, Asking), c, Ready).phases == x.mutex.phases[c := Ready];
    }
  }

  /**
   co_await, alone: on a free mutex the coroutine comes out with its guard; on
   an owned one it stands at the end of the wait list; cancelled, or finding the
   mutex cancelled, it throws.
   */
  lemma AwaitAlone(x: Lone, t: nat, turns: nat, c: nat) returns (n: nat)
    requires Enabled(x.mutex, Begin(t, Await(c)))
    ensures Alone(Begun(x, t, Await(c)), t, turns, n) == AwaitOutcome(x, c)
  {
    var y := Begun(x, t, Await(c));
    Enters(x, t, Await(c), c);
    SameOnEntry(x, y, t, c);
    if x.mutex.cancelled {
      n := AwaitsCancelled(y, t, turns, c);
    } else if x.mutex.owner == NULL {
      n := AwaitsFree(y, t, turns, c);
      var free, free' := x.(mutex := x.mutex.(owner := c)), y.(mutex := y.mutex.(owner := c));
      assert Entered(free, free', t, c);
      SameOnEntry(free, free', t, c);
    } else {
      n := AwaitsOwned(y, t, turns, c);
    }
  }

  /** co_await with the advice to suspend at once, alone: a free mutex is taken and the coroutine scheduled. */
  lemma AwaitSuspendedAlone(x: Lone, t: nat, turns: nat, c: nat) returns (n: nat)
    requires Enabled(x.mutex, Begin(t, AwaitSuspended(c)))
    ensures Alone(Begun(x, t, AwaitSuspended(c)), t, turns, n) == SuspendOutcome(x, c)
  {
    var y := Begun(x, t, AwaitSuspended(c));
    Enters(x, t, AwaitSuspended(c), c);
    SameOnEntry(x, y, t, c);
    n := Suspends(y, t, turns, c);
  }

  /** A scheduled coroutine, alone, has its guard, or throws because it or the mutex is cancelled. */
  lemma ResumeAlone(x: Lone, t: nat, turns: nat, c: nat) returns (n: nat)
    requires Enabled(x.mutex, Begin(t, Resume(c)))
    ensures Alone(Begun(x, t, Resume(c)), t, turns, n) == x.(mutex := ResumeOutcome(x.mutex, c))
  {
    var y := Begun(x, t, Resume(c));
    Enters(x, t, Resume(c), c);
    SameOnEntry(x, y, t, c);
    n := Resumes(y, t, turns, c);
  }

  lemma SameReadied(a: map<nat, Phase>, b: map<nat, Phase>, q: seq<nat>, c: nat)
    requires a[c := Out] == b[c := Out]
    ensures Readied(a, q)[c := Out] == Readied(b, q)[c := Out]
  {
    forall d | d != c
      ensures (d in a <==> d in b) && (d in a ==> a[d] == b[d])
    {
      assert d in a[c := Out] <==> d in b[c := Out];
      assert d in a ==> a[c := Out][d] == b[c := Out][d];
    }
  }

  lemma UnlockOnEntry(x: Lone, y: Lone, t: nat, c: nat)
    requires Entered(x, y, t, c)
    ensures |UnlockOutcome(y, c).mutex.threads| == |x.mutex.threads|
    ensures UnlockOutcome(y, c).(mutex := Done(UnlockOutcome(y, c).mutex, t)) == UnlockOutcome(x, c)
  {
    assert y.mutex.phases[c := Out] == x.mutex.phases[c := Out];
    if x.mutex.owner == c && x.mutex.cancelled {
      SameReadied(y.mutex.phases, x.mutex.phases, x.mutex.wait, c);
    }
  }

  /**
   unlock, alone: the owner hands on to the first waiter, who is scheduled, or
   frees the mutex; of a cancelled mutex it marks and schedules every waiter.
   A coroutine that is not the owner changes nothing of the mutex.
   */
  lemma UnlockAlone(x: Lone, t: nat, turns: nat, c: nat) returns (n: nat)
    requires Enabled(x.mutex, Begin(t, Unlock(c)))
    ensures Alone(Begun(x, t, Unlock(c)), t, turns, n) == UnlockOutcome(x, c)
  {
    var y := Begun(x, t, Unlock(c));
    Enters(x, t, Unlock(c), c);
    UnlockOnEntry(x, y, t, c);
    n := Unlocks(y, t, turns, c);
  }

  /** cancel, alone: every waiter is marked and scheduled, in order. */
  lemma CancelAlone(x: Lone, t: nat, turns: nat) returns (n: nat)
    requires Enabled(x.mutex, Begin(t, Cancel))
    ensures Alone(Begun(x, t, Cancel), t, turns, n) == Emptied(x.(mutex := x.mutex.(cancelled := true)))
  {
    var x1 := x.(mutex := x.mutex.(cancelled := true));
    var y1 := x.(mutex := With(x1.mutex, t, IDLE.(pc := Drain)));
    CancelSets(x, t, turns);
    Drains(y1, t, turns);
    DrainsAsStated(x1, y1, t);
    n := 3 * |x.mutex.wait| + 1;
    AloneMore(Begun(x, t, Cancel), t, turns, 1, n);
    n := n + 1;
  }

  lemma CancelSets(x: Lone, t: nat, turns: nat)
    requires Enabled(x.mutex, Begin(t, Cancel))
    ensures Alone(Begun(x, t, Cancel), t, turns, 1)
         == x.(mutex := With(x.mutex.(cancelled := true), t, IDLE.(pc := Drain)))
  {
    var y := Begun(x, t, Cancel);
    assert y.mutex.threads[t := IDLE.(pc := Drain)] == x.mutex.threads[t := IDLE.(pc := Drain)];
    Once(y, t, turns, x.(mutex := With(x.mutex.(cancelled := true), t, IDLE.(pc := Drain))));
  }

  lemma DrainsAsStated(x: Lone, y: Lone, t: nat)
    requires t < |x.mutex.threads| && x.mutex.threads[t] == IDLE
    requires y == x.(mutex := With(x.mutex, t, IDLE.(pc := Drain)))
    ensures Drained(y, t, IDLE) == Emptied(x)
  {
    assert y.mutex.threads[t := IDLE] == x.mutex.threads;
  }

  /** remove: the list is rotated, a mutex without owner goes to the next waiter, and the coroutine is scheduled. */
  function RemoveOutcome(x: Lone, c: nat, turns: nat): Lone {
    var (found, rest) := RemoveFrom(x.mutex.wait, c, turns);
    var y := Repaired(x.(mutex := x.mutex.(wait := rest)));
    if found then Lone(Become(y.mutex, c, Ready), y.scheduled + [c]) else y
  }

  lemma SameRemoved(x: Lone, y: Lone, t: nat, c: nat)
    requires t < |y.mutex.threads| == |x.mutex.threads| && y.mutex.threads[t] == IDLE
    requires x == y.(mutex := With(y.mutex, t, x.mutex.threads[t]))
    ensures |Repaired(x).mutex.threads| == |Repaired(y).mutex.threads| == |y.mutex.threads|
    ensures Repaired(x).scheduled == Repaired(y).scheduled
    ensures Done(Repaired(x).mutex, t) == Repaired(y).mutex
    ensures Done(Become(Repaired(x).mutex, c, Ready), t) == Become(Repaired(y).mutex, c, Ready)
  {
    assert x.mutex.threads[t := IDLE] == y.mutex.threads;
  }

  /** What RepairsAndSchedules makes of a mutex from which `c` was removed, or nobody. */
  function Removed(y: Lone, t: nat, c: nat): Lone
    requires t < |y.mutex.threads|
  {
    if c == NULL then y.(mutex := Done(y.mutex, t)) else Lone(Done(Become(y.mutex, c, Ready), t), y.scheduled + [c])
  }

  lemma TakesAndSchedules(x: Lone, t: nat, turns: nat, c: nat) returns (n: nat)
    requires At(x, t, Taking(c, turns)) && c != NULL
    ensures var (found, rest) := RemoveFrom(x.mutex.wait, c, turns);
            var y := Repaired(Rotated(x, t, c, turns));
            |y.mutex.threads| == |x.mutex.threads|
                && Alone(x, t, turns, n) == Removed(y, t, if found then c else NULL)
  {
    n := Rotates(x, t, turns, c, turns);
    var x1 := Rotated(x, t, c, turns);
    var found := RemoveFrom(x.mutex.wait, c, turns).0;
    var more := RepairsAndSchedules(x1, t, turns, if found then c else NULL);
    Chain(x, t, turns, n, x1, more, Removed(Repaired(x1), t, if found then c else NULL));
    n := n + more;
  }

  lemma RemovesAsStated(x: Lone, x1: Lone, t: nat, turns: nat, c: nat)
    requires t < |x.mutex.threads| && x.mutex.threads[t] == IDLE && c != NULL
    requires x1 == x.(mutex := With(x.mutex, t, Taking(c, turns)))
    ensures var found := RemoveFrom(x.mutex.wait, c, turns).0;
            var y := Repaired(Rotated(x1, t, c, turns));
            |y.mutex.threads| == |x.mutex.threads|
                && Removed(y, t, if found then c else NULL) == RemoveOutcome(x, c, turns)
  {
    var (found, rest) := RemoveFrom(x.mutex.wait, c, turns);
    var x2, y2 := Rotated(x1, t, c, turns), x.(mutex := x.mutex.(wait := rest));
    assert x2.mutex.threads == y2.mutex.threads[t := x2.mutex.threads[t]];
    SameRemoved(x2, y2, t, c);
  }

  /**
   A cancelled coroutine that is removed alone: the wait list is left as the
   rotation leaves it, a mutex found without owner goes to the next waiter, and
   the coroutine is scheduled if it was found.
   */
  lemma RemoveAlone(x: Lone, t: nat, turns: nat, c: nat) returns (n: nat)
    requires Enabled(x.mutex, Begin(t, Remove(c))) && c != NULL
    ensures Alone(Begun(x, t, Remove(c)), t, turns, n) == RemoveOutcome(x, c, turns)
  {
    var y := Begun(x, t, Remove(c));
    var y1 := x.(mutex := With(x.mutex, t, Taking(c, turns)));
    Once(y, t, turns, y1);
    n := TakesAndSchedules(y1, t, turns, c);
    RemovesAsStated(x, y1, t, turns, c);
    Chain(y, t, turns, 1, y1, n, RemoveOutcome(x, c, turns));
    n := n + 1;
  }

  // ---------------------------------------------------------------------
  // From wherever the thread is
  // ---------------------------------------------------------------------

  /** Bounds the accesses that lock has left. */
  function LockLeft(m: Mutex, pc: Pc): nat {
    match pc
    case LockLoad => if m.owner == NULL then 4 else 5
    case LockEnqueue => if m.owner == NULL then 6 else 3
    case LockReload => if m.owner == NULL then 5 else 2
    case LockDequeue => 4 + if m.owner == NULL then 0 else 1
    case LockCas => if m.owner == NULL then 3 else 4
    case _ => 2
  }

  function UnlockLeft(m: Mutex, pc: Pc): nat {
    var w := 3 * |m.wait|;
    match pc
    case UnlockLoad => w + 11
    case UnlockOther => 2
    case UnlockMark => 1
    case UnlockFlag => w + 10
    case OwnerMark => w + 4
    case OwnerDrain => w + 3
    case OwnerDrop => w + 5
    case OwnerSchedule => w + 4
    case OwnerRelease => w + 2
    case UnlockDequeue => 9
    case Release => 8
    case UnlockRetry => 7
    case _ => 3
  }

  function Left(m: Mutex, th: Thread, turns: nat): nat {
    var pc, w := th.pc, 3 * |m.wait|;
    if LockPc(pc) then LockLeft(m, pc)
    else if UnlockPc(pc) then UnlockLeft(m, pc)
    else
      match pc
      case Idle => 0
      case ReadyFlag => 11
      case TryLoad => 10
      case TryCas => 9
      case SuspendAdvice => 8
      case SuspendFlag => 7
      case SuspendMark => 1
      case ResumeSelf => 4
      case ResumeFlag => 3
      case ResumeMark => 2
      case ResumeFinish => 1
      case CancelSet => w + 2
      case Drain => w + 1
      case DrainDrop => w + 3
      case DrainSchedule => w + 2
      case RemoveCount => 2 * turns + 10
      case RemoveTake => 2 * th.left + 9
      case RemovePut => 2 * th.left + 10
      case RemoveCheck => 8
      case RemoveDequeue => 7
      case _ => 1
  }

  lemma AwaiterNearer(m: Mutex, t: nat, turns: nat)
    requires t < |m.threads| && AwaiterPc(m.threads[t].pc)
    ensures var m' := AwaiterStep(m, t, false);
            |m'.threads| == |m.threads| && Left(m', m'.threads[t], turns) < Left(m, m.threads[t], turns)
  {
  }

  lemma LockNearer(m: Mutex, t: nat, turns: nat)
    requires t < |m.threads| && LockPc(m.threads[t].pc)
    ensures var m' := LockStep(m, t, false);
            |m'.threads| == |m.threads| && Left(m', m'.threads[t], turns) < Left(m, m.threads[t], turns)
  {
  }

  lemma UnlockNearer(m: Mutex, t: nat, turns: nat)
    requires t < |m.threads| && UnlockPc(m.threads[t].pc)
    ensures var m' := UnlockStep(m, t);
            |m'.threads| == |m.threads| && Left(m', m'.threads[t], turns) < Left(m, m.threads[t], turns)
  {
  }

  lemma DrainNearer(m: Mutex, t: nat, turns: nat)
    requires t < |m.threads|
    requires var pc := m.threads[t].pc; pc.CancelSet? || pc.Drain? || pc.DrainDrop? || pc.DrainSchedule?
    ensures var m' := CancelStep(m, t, turns);
            |m'.threads| == |m.threads| && Left(m', m'.threads[t], turns) < Left(m, m.threads[t], turns)
  {
  }

  lemma RotationNearer(m: Mutex, t: nat, turns: nat)
    requires t < |m.threads|
    requires var pc := m.threads[t].pc; pc.RemoveCount? || pc.RemoveTake? || pc.RemovePut?
    ensures var m' := CancelStep(m, t, turns);
            |m'.threads| == |m.threads| && Left(m', m'.threads[t], turns) < Left(m, m.threads[t], turns)
  {
  }

  lemma RepairNearer(m: Mutex, t: nat, turns: nat)
    requires t < |m.threads|
    requires var pc := m.threads[t].pc; pc.RemoveCheck? || pc.RemoveDequeue? || pc.RemovedSchedule?
    ensures var m' := CancelStep(m, t, turns);
            |m'.threads| == |m.threads| && Left(m', m'.threads[t], turns) < Left(m, m.threads[t], turns)
  {
  }

  /** Wherever a thread is inside the mutex, it returns from there if it moves alone. */
  lemma {:induction false} ReturnsAlone(x: Lone, t: nat, turns: nat) returns (n: nat)
    requires t < |x.mutex.threads|
    ensures |Alone(x, t, turns, n).mutex.threads| == |x.mutex.threads|
    ensures Alone(x, t, turns, n).mutex.threads[t].pc.Idle?
    decreases Left(x.mutex, x.mutex.threads[t], turns)
  {
    var m := x.mutex;
    if m.threads[t].pc.Idle? {
      n := 0;
    } else {
      NearerStep(m, t, turns);
      var y := Forward(x, t, turns);
      n := ReturnsAlone(y, t, turns);
      AloneMore(x, t, turns, 1, n);
      Once(x, t, turns, y);
      n := n + 1;
    }
  }

  lemma NearerStep(m: Mutex, t: nat, turns: nat)
    requires t < |m.threads| && !m.threads[t].pc.Idle?
    ensures var m' := Next(m, Step(t, false, turns));
            |m'.threads| == |m.threads| && Left(m', m'.threads[t], turns) < Left(m, m.threads[t], turns)
  {
    var pc := m.threads[t].pc;
    if AwaiterPc(pc) {
      AwaiterNearer(m, t, turns);
    } else if LockPc(pc) {
      LockNearer(m, t, turns);
    } else if UnlockPc(pc) {
      UnlockNearer(m, t, turns);
    } else {
      if pc.CancelSet? || pc.Drain? || pc.DrainDrop? || pc.DrainSchedule? {
        DrainNearer(m, t, turns);
      } else if pc.RemoveCount? || pc.RemoveTake? || pc.RemovePut? {
        RotationNearer(m, t, turns);
      } else {
        RepairNearer(m, t, turns);
      }
    }
  }
}
