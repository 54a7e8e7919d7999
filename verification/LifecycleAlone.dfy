/** What a cancel, a drop, a suspension and the end of a coroutine do when nobody else moves. */
module LifecycleAlone {
  import opened Tally
  import opened Undisturbed
  import opened CoroutineStatus
  import opened Lifecycle
  import opened LifecycleProof

  // ---------------------------------------------------------------------
  // A handle
  // ---------------------------------------------------------------------

  /** The frame, and the awaiters that cancel has asked to let go since the handle moves alone, in order. */
  datatype Lone = Lone(frame: Frame, asked: seq<nat>)

  /** `choice` is what cancel learns from an awaiter and the advice to cancel abandoned coroutines. */
  function Forward(x: Lone, h: nat, choice: bool): Lone {
    Lone(Next(x.frame, HolderStep(h, choice)),
         x.asked + if h < |x.frame.holders| && x.frame.holders[h].pc.CancelAwaiter? then [x.frame.holders[h].taken]
             else [])
  }

  function Mover(h: nat, choice: bool): Lone -> Lone {
    (x: Lone) => Forward(x, h, choice)
  }

  /** After `n` accesses through handle `h`, with nobody else moving. */
  function Alone(x: Lone, h: nat, choice: bool, n: nat): Lone {
    After(Mover(h, choice), x, n)
  }

  lemma AloneMore(x: Lone, h: nat, choice: bool, a: nat, b: nat)
    ensures Alone(x, h, choice, a + b) == Alone(Alone(x, h, choice, a), h, choice, b)
  {
    AfterMore(Mover(h, choice), x, a, b);
  }

  lemma Extend(x: Lone, h: nat, choice: bool, n: nat, y: Lone, z: Lone)
    requires Alone(x, h, choice, n) == y && Forward(y, h, choice) == z
    ensures Alone(x, h, choice, n + 1) == z
  {
    AloneMore(x, h, choice, n, 1);
    AfterFew(Mover(h, choice), y);
  }

  lemma Chain(x: Lone, h: nat, choice: bool, a: nat, y: Lone, b: nat, z: Lone)
    requires Alone(x, h, choice, a) == y && Alone(y, h, choice, b) == z
    ensures Alone(x, h, choice, a + b) == z
  {
    AloneMore(x, h, choice, a, b);
  }

  /** The handle's locals once it is through. */
  function Through(k: Holder, pc: HolderPc): Holder {
    k.(pc := pc)
  }

  predicate Is(x: Lone, h: nat, k: Holder) {
    h < |x.frame.holders| && x.frame.holders[h] == k && !x.frame.aborted
  }

  /** The frame, with the handle at `k`. */
  function With(x: Lone, h: nat, k: Holder): Lone
    requires h < |x.frame.holders|
  {
    x.(frame := Hold(x.frame, h, k))
  }

  /** Cancel turns to the list only of a coroutine that is suspended and has an awaiter there. */
  predicate Acts(f: Frame) {
    !f.cancelled && f.status.Suspended? && f.awaiters != []
  }

  /** What cancel makes of the frame and asks, but for the handle's locals. */
  function Cancelled(x: Lone): Lone {
    var f := x.frame;
    Lone(f.(cancelled := true, awaiters := if Acts(f) then [] else f.awaiters),
         x.asked + if Acts(f) then f.awaiters else [])
  }

  /** Cancel of a coroutine that needs no pause. */
  lemma CancelsQuietly(x: Lone, h: nat, choice: bool, k: Holder) returns (n: nat)
    requires Is(x, h, k.(pc := CancelTest)) && !Acts(x.frame)
    ensures Alone(x, h, choice, n) == With(Cancelled(x), h, k.(pc := AfterCancel(k.last)))
  {
    var f := x.frame;
    var back := k.(pc := AfterCancel(k.last));
    if f.cancelled {
      Extend(x, h, choice, 0, x, With(x, h, back));
      n := 1;
    } else {
      var y := x.(frame := f.(cancelled := true));
      Extend(x, h, choice, 0, x, With(x, h, k.(pc := CancelSet)));
      Extend(x, h, choice, 1, With(x, h, k.(pc := CancelSet)), With(y, h, k.(pc := CancelStatus)));
      n := QuietEnds(y, h, choice, k);
      Chain(x, h, choice, 2, With(y, h, k.(pc := CancelStatus)), n, With(y, h, back));
      n := n + 2;
    }
  }

  lemma QuietEnds(y: Lone, h: nat, choice: bool, k: Holder) returns (n: nat)
    requires h < |y.frame.holders| && !y.frame.aborted && !(y.frame.status.Suspended? && y.frame.awaiters != [])
    ensures Alone(With(y, h, k.(pc := CancelStatus)), h, choice, n) == With(y, h, k.(pc := AfterCancel(k.last)))
  {
    var z := With(y, h, k.(pc := CancelStatus));
    var back := k.(pc := AfterCancel(k.last));
    if !y.frame.status.Suspended? {
      Extend(z, h, choice, 0, z, With(y, h, back));
      n := 1;
    } else {
      Extend(z, h, choice, 0, z, With(y, h, k.(pc := CancelEmpty)));
      Extend(z, h, choice, 1, With(y, h, k.(pc := CancelEmpty)), With(y, h, back));
      n := 2;
    }
  }

  /** Cancel up to the look at the list. */
  lemma CancelLooks(x: Lone, h: nat, choice: bool, k: Holder)
    requires Is(x, h, k.(pc := CancelTest)) && Acts(x.frame)
    ensures Alone(x, h, choice, 3) == With(x.(frame := x.frame.(cancelled := true)), h, k.(pc := CancelEmpty))
  {
    var y := x.(frame := x.frame.(cancelled := true));
    var x1, x2 := With(x, h, k.(pc := CancelSet)), With(y, h, k.(pc := CancelStatus));
    Extend(x, h, choice, 0, x, x1);
    Extend(x, h, choice, 1, x1, x2);
    Extend(x, h, choice, 2, x2, With(y, h, k.(pc := CancelEmpty)));
  }

  lemma AsksForPause(y: Lone, h: nat, choice: bool, k: Holder)
    requires h < |y.frame.holders| && !y.frame.aborted && y.frame.status.Suspended? && y.frame.awaiters != []
    ensures Alone(With(y, h, k.(pc := CancelEmpty)), h, choice, 2)
         == With(y.(frame := y.frame.(status := PauseOnRunning)), h, k.(pc := CancelTake, blocking := false))
  {
    var z, z1 := With(y, h, k.(pc := CancelEmpty)), With(y, h, k.(pc := CancelPause));
    Extend(z, h, choice, 0, z, z1);
    Extend(z, h, choice, 1, z1,
           With(y.(frame := y.frame.(status := PauseOnRunning)), h, k.(pc := CancelTake, blocking := false)));
  }

  /** Cancel up to the pause. */
  lemma CancelPauses(x: Lone, h: nat, choice: bool, k: Holder)
    requires Is(x, h, k.(pc := CancelTest)) && Acts(x.frame)
    ensures Alone(x, h, choice, 5) ==
              With(x.(frame := x.frame.(cancelled := true, status := PauseOnRunning)), h,
                   k.(pc := CancelTake, blocking := false))
  {
    var y := x.(frame := x.frame.(cancelled := true));
    CancelLooks(x, h, choice, k);
    AsksForPause(y, h, choice, k);
    AloneMore(x, h, choice, 3, 2);
  }

  /** What one turn of the loop leaves: the first awaiter is taken out and asked. */
  function FirstAsked(y: Lone): Lone
    requires y.frame.awaiters != []
  {
    Lone(y.frame.(awaiters := y.frame.awaiters[1..]), y.asked + [y.frame.awaiters[0]])
  }

  function Asking(y: Lone, k: Holder, choice: bool): Holder
    requires y.frame.awaiters != []
  {
    k.(blocking := k.blocking || choice, taken := y.frame.awaiters[0])
  }

  /** The loop has an awaiter to take out. */
  predicate Turns(y: Lone, h: nat, k: Holder) {
    h < |y.frame.holders| && !y.frame.aborted && k.pc.CancelTake? && y.frame.awaiters != []
  }

  /** A loop with such turns empties the list. */
  lemma {:induction false} LoopAsks(advance: Lone -> Lone, y: Lone, h: nat, choice: bool, k: Holder)
    returns (n: nat, k': Holder)
    requires h < |y.frame.holders| && !y.frame.aborted && k.pc.CancelTake?
    requires forall z: Lone, j: Holder {:trigger Turns(z, h, j)} :: Turns(z, h, j) ==>
               After(advance, With(z, h, j), 2) == With(FirstAsked(z), h, Asking(z, j, choice))
    ensures After(advance, With(y, h, k), n) == With(Lone(y.frame.(awaiters := []), y.asked + y.frame.awaiters), h, k')
    ensures k'.pc.CancelTake? && k'.last == k.last
    decreases |y.frame.awaiters|
  {
    if y.frame.awaiters == [] {
      n, k' := 0, k;
    } else {
      var y1 := FirstAsked(y);
      assert Turns(y, h, k);
      n, k' := LoopAsks(advance, y1, h, choice, Asking(y, k, choice));
      assert y1.asked + y1.frame.awaiters == y.asked + y.frame.awaiters;
      AfterMore(advance, With(y, h, k), 2, n);
      n := n + 2;
    }
  }

  /** Each awaiter in the list is taken out and asked. */
  lemma CancelAsks(y: Lone, h: nat, choice: bool, k: Holder) returns (n: nat, k': Holder)
    requires h < |y.frame.holders| && !y.frame.aborted && k.pc.CancelTake?
    ensures Alone(With(y, h, k), h, choice, n) ==
              With(Lone(y.frame.(awaiters := []), y.asked + y.frame.awaiters), h, k')
    ensures k'.pc.CancelTake? && k'.last == k.last
  {
    forall z: Lone, j: Holder {:trigger Turns(z, h, j)} | Turns(z, h, j)
      ensures After(Mover(h, choice), With(z, h, j), 2) == With(FirstAsked(z), h, Asking(z, j, choice))
    {
      AsksFirst(z, h, choice, j);
    }
    n, k' := LoopAsks(Mover(h, choice), y, h, choice, k);
  }

  lemma AsksFirst(y: Lone, h: nat, choice: bool, k: Holder)
    requires h < |y.frame.holders| && !y.frame.aborted && k.pc.CancelTake? && y.frame.awaiters != []
    ensures Alone(With(y, h, k), h, choice, 2) == With(FirstAsked(y), h, Asking(y, k, choice))
  {
    var a, rest := y.frame.awaiters[0], y.frame.awaiters[1..];
    var z := With(y, h, k);
    var z1 := With(y.(frame := y.frame.(awaiters := rest)), h, k.(pc := CancelAwaiter, taken := a));
    Extend(z, h, choice, 0, z, z1);
    Extend(z, h, choice, 1, z1, With(FirstAsked(y), h, Asking(y, k, choice)));
  }

  /** With the list empty, a second look at the status at most, and the end of the pause. */
  lemma CancelResumes(y: Lone, h: nat, choice: bool, k: Holder) returns (n: nat, k': Holder)
    requires h < |y.frame.holders| && !y.frame.aborted && k.pc.CancelTake?
    requires y.frame.awaiters == [] && y.frame.status.PauseOnRunning?
    ensures Alone(With(y, h, k), h, choice, n) == With(y.(frame := y.frame.(status := Suspended)), h, k')
    ensures k'.pc == AfterCancel(k.last) && k'.last == k.last
  {
    var k0 := k.(blocking := false);
    k' := k0.(pc := AfterCancel(k.last));
    n := if k.blocking then 2 else 0;
    if k.blocking {
      LooksAgain(y, h, choice, k);
    }
    EndsPause(y, h, choice, k0);
    Chain(With(y, h, k), h, choice, n, With(y, h, k0), 2, With(y.(frame := y.frame.(status := Suspended)), h, k'));
    n := n + 2;
  }

  lemma EndsPause(y: Lone, h: nat, choice: bool, k: Holder)
    requires h < |y.frame.holders| && !y.frame.aborted && k.pc.CancelTake? && !k.blocking
    requires y.frame.awaiters == [] && y.frame.status.PauseOnRunning?
    ensures Alone(With(y, h, k), h, choice, 2)
         == With(y.(frame := y.frame.(status := Suspended)), h, k.(pc := AfterCancel(k.last)))
  {
    var z, z1 := With(y, h, k), With(y, h, k.(pc := CancelResume));
    Extend(z, h, choice, 0, z, z1);
    Extend(z, h, choice, 1, z1, With(y.(frame := y.frame.(status := Suspended)), h, k.(pc := AfterCancel(k.last))));
  }

  lemma LooksAgain(y: Lone, h: nat, choice: bool, k: Holder)
    requires h < |y.frame.holders| && !y.frame.aborted && k.pc.CancelTake? && k.blocking
    requires y.frame.awaiters == [] && y.frame.status.PauseOnRunning?
    ensures Alone(With(y, h, k), h, choice, 2) == With(y, h, k.(blocking := false))
  {
    var z := With(y, h, k);
    var z1 := With(y, h, k.(pc := CancelAgain));
    Extend(z, h, choice, 0, z, z1);
    Extend(z, h, choice, 1, z1, With(y, h, k.(blocking := false)));
  }

  /** Cancel of a suspended coroutine that has an awaiter in the list. */
  lemma CancelsLoudly(x: Lone, h: nat, choice: bool, k: Holder) returns (n: nat, k': Holder)
    requires Is(x, h, k.(pc := CancelTest)) && Acts(x.frame)
    ensures Alone(x, h, choice, n) == With(Cancelled(x), h, k')
    ensures k'.pc == AfterCancel(k.last) && k'.last == k.last
  {
    var y := x.(frame := x.frame.(cancelled := true, status := PauseOnRunning));
    var a, k2 := PausesAndAsks(x, h, choice, k);
    var b;
    b, k' := CancelResumes(Asked(y), h, choice, k2);
    Chain(x, h, choice, a, With(Asked(y), h, k2), b, With(Cancelled(x), h, k'));
    n := a + b;
  }

  lemma PausesAndAsks(x: Lone, h: nat, choice: bool, k: Holder) returns (n: nat, k': Holder)
    requires Is(x, h, k.(pc := CancelTest)) && Acts(x.frame)
    ensures Alone(x, h, choice, n) ==
              With(Asked(x.(frame := x.frame.(cancelled := true, status := PauseOnRunning))), h, k')
    ensures k'.pc.CancelTake? && k'.last == k.last
  {
    var y := x.(frame := x.frame.(cancelled := true, status := PauseOnRunning));
    var k1 := k.(pc := CancelTake, blocking := false);
    CancelPauses(x, h, choice, k);
    n, k' := CancelAsks(y, h, choice, k1);
    Chain(x, h, choice, 5, With(y, h, k1), n, With(Asked(y), h, k'));
    n := n + 5;
  }

  function Asked(y: Lone): Lone {
    Lone(y.frame.(awaiters := []), y.asked + y.frame.awaiters)
  }

  lemma Cancels(x: Lone, h: nat, choice: bool, k: Holder) returns (n: nat, k': Holder)
    requires Is(x, h, k.(pc := CancelTest))
    ensures Alone(x, h, choice, n) == With(Cancelled(x), h, k')
    ensures k'.pc == AfterCancel(k.last) && k'.last == k.last
  {
    if Acts(x.frame) {
      n, k' := CancelsLoudly(x, h, choice, k);
    } else {
      k' := k.(pc := AfterCancel(k.last));
      n := CancelsQuietly(x, h, choice, k);
    }
  }

  /**
   cancel, alone: the flag is set; if it was not, and the coroutine is suspended
   with awaiters in the list, each of them is asked, the list is empty, and the
   status is again what it was.
   */
  lemma CancelAlone(x: Lone, v: View, h: nat, choice: bool) returns (n: nat, k: Holder)
    requires Inv(x.frame, v) && Enabled(x.frame, Begin(h, Cancel))
    ensures Alone(x.(frame := Next(x.frame, Begin(h, Cancel))), h, choice, n) == With(Cancelled(x), h, k)
    ensures k.pc.Holding? && !k.last
  {
    var y := x.(frame := Next(x.frame, Begin(h, Cancel)));
    assert HolderFits(x.frame, v, h);
    n, k := Cancels(y, h, choice, x.frame.holders[h].(pc := CancelTest));
    assert With(Cancelled(y), h, k) == With(Cancelled(x), h, k);
  }

  // ---------------------------------------------------------------------
  // Dropping a handle
  // ---------------------------------------------------------------------

  /** The last handle lets go: the frame is destroyed, or abandoned to whoever comes last. */
  function Abandoned(f: Frame): Frame {
    Request(f, Status.Abandoned, false).(destroyed := f.destroyed + if Destroys(f) then 1 else 0)
  }

  predicate Destroys(f: Frame) {
    f.status.CompletedFinalSuspended? || (f.lazy && f.status.NotStarted?)
  }

  lemma AbandonStep(y: Lone, h: nat, choice: bool, k: Holder)
    requires h < |y.frame.holders| && !y.frame.aborted
    requires SetStatus(y.frame.status, Status.Abandoned, false, y.frame.cancelled) != Abort
    ensures var z := y.(frame := Request(y.frame, Status.Abandoned, false));
            && h < |z.frame.holders| && !z.frame.aborted && z.frame.destroyed == y.frame.destroyed
            && Forward(With(y, h, k.(pc := DropAbandon)), h, choice)
            == With(z, h, k.(pc := if Destroys(y.frame) then DropDestroy else Gone))
  {
  }

  lemma DestroyStep(z: Lone, h: nat, choice: bool, k: Holder)
    requires h < |z.frame.holders| && !z.frame.aborted
    ensures Forward(With(z, h, k.(pc := DropDestroy)), h, choice)
         == With(z.(frame := z.frame.(destroyed := z.frame.destroyed + 1)), h, k.(pc := Gone))
  {
  }

  lemma Abandons(y: Lone, h: nat, choice: bool, k: Holder) returns (n: nat)
    requires h < |y.frame.holders| && !y.frame.aborted
    requires SetStatus(y.frame.status, Status.Abandoned, false, y.frame.cancelled) != Abort
    ensures |Abandoned(y.frame).holders| == |y.frame.holders|
    ensures Alone(With(y, h, k.(pc := DropAbandon)), h, choice, n)
         == With(y.(frame := Abandoned(y.frame)), h, k.(pc := Gone))
  {
    var z := y.(frame := Request(y.frame, Status.Abandoned, false));
    var here := With(y, h, k.(pc := DropAbandon));
    AbandonStep(y, h, choice, k);
    AfterFew(Mover(h, choice), here);
    n := 1;
    if Destroys(y.frame) {
      DestroyStep(z, h, choice, k);
      n := 2;
    }
  }

  lemma DropsLast(y: Lone, h: nat, choice: bool, k: Holder) returns (n: nat, k': Holder)
    requires h < |y.frame.holders| && !y.frame.aborted && k.last && !y.frame.status.CompletedFinalSuspended?
    requires SetStatus(y.frame.status, Status.Abandoned, false, true) != Abort
    ensures var z := if choice then Cancelled(y) else y;
            Alone(With(y, h, k.(pc := DropAdvice)), h, choice, n) == With(z.(frame := Abandoned(z.frame)), h, k')
    ensures k'.pc.Gone?
  {
    var here := With(y, h, k.(pc := DropAdvice));
    if choice {
      n, k' := CancelsAndAbandons(y, h, k);
    } else {
      Extend(here, h, choice, 0, here, With(y, h, k.(pc := DropAbandon)));
      n := Abandons(y, h, choice, k);
      k' := k.(pc := Gone);
      Chain(here, h, choice, 1, With(y, h, k.(pc := DropAbandon)), n, With(y.(frame := Abandoned(y.frame)), h, k'));
      n := n + 1;
    }
  }

  lemma CancelsFirst(y: Lone, h: nat, k: Holder) returns (n: nat, k': Holder)
    requires h < |y.frame.holders| && !y.frame.aborted && k.last
    ensures Alone(With(y, h, k.(pc := DropAdvice)), h, true, n) == With(Cancelled(y), h, k')
    ensures k'.pc.DropClear?
  {
    var here, x1 := With(y, h, k.(pc := DropAdvice)), With(y, h, k.(pc := CancelTest));
    Extend(here, h, true, 0, here, x1);
    n, k' := Cancels(x1, h, true, k);
    assert With(Cancelled(x1), h, k') == With(Cancelled(y), h, k');
    Chain(here, h, true, 1, x1, n, With(Cancelled(y), h, k'));
    n := n + 1;
  }

  lemma CancelsAndAbandons(y: Lone, h: nat, k: Holder) returns (n: nat, k': Holder)
    requires h < |y.frame.holders| && !y.frame.aborted && k.last
    requires SetStatus(y.frame.status, Status.Abandoned, false, true) != Abort
    ensures var z := Cancelled(y);
            Alone(With(y, h, k.(pc := DropAdvice)), h, true, n) == With(z.(frame := Abandoned(z.frame)), h, k')
    ensures k'.pc.Gone?
  {
    var here, z := With(y, h, k.(pc := DropAdvice)), Cancelled(y);
    var k1;
    n, k1 := CancelsFirst(y, h, k);
    Extend(here, h, true, n, With(z, h, k1), With(z, h, k1.(pc := DropAbandon)));
    var m := Abandons(z, h, true, k1);
    k' := k1.(pc := Gone);
    Chain(here, h, true, n + 1, With(z, h, k1.(pc := DropAbandon)), m, With(z.(frame := Abandoned(z.frame)), h, k'));
    n := n + 1 + m;
  }

  /** The status of a frame whose last handle is about to go lets itself be abandoned. */
  lemma LastMayAbandon(f: Frame, v: View, h: nat)
    requires Inv(f, v) && !f.aborted && h < |f.holders| && f.holders[h].pc.DropUnref? && f.refs == 1
    ensures SetStatus(f.status, Status.Abandoned, false, true) != Abort
  {
    assert HolderFits(f, v, h);
    LastReference(f, v, h);
    if v.canceller.Some? {
      assert HolderFits(f, v, v.canceller.value);
    }
    assert !Summary(f, v).pause && !Summary(f, v).released;
  }

  lemma Drops(x: Lone, v: View, h: nat, choice: bool) returns (n: nat, k: Holder)
    requires Inv(x.frame, v) && !x.frame.aborted && h < |x.frame.holders| && x.frame.holders[h].pc.DropUnref?
    ensures Alone(x, h, choice, n) == With(Dropped(x, choice), h, k)
    ensures k.pc.Gone?
  {
    assert HolderFits(x.frame, v, h);
    var k0 := x.frame.holders[h];
    var y := x.(frame := x.frame.(refs := x.frame.refs - 1));
    if x.frame.refs != 1 {
      k := k0.(pc := Gone);
      Extend(x, h, choice, 0, x, With(y, h, k));
      n := 1;
    } else {
      LastMayAbandon(x.frame, v, h);
      var k1 := k0.(pc := DropStatus, last := true);
      Extend(x, h, choice, 0, x, With(y, h, k1));
      n, k := DropsStatus(y, h, choice, k1);
      Chain(x, h, choice, 1, With(y, h, k1), n, With(Dropped(x, choice), h, k));
      n := n + 1;
    }
  }

  lemma DropsFinished(y: Lone, h: nat, choice: bool, k: Holder)
    requires h < |y.frame.holders| && !y.frame.aborted && k.pc.DropStatus? && y.frame.status.CompletedFinalSuspended?
    ensures Alone(With(y, h, k), h, choice, 2)
         == With(y.(frame := y.frame.(destroyed := y.frame.destroyed + 1)), h, k.(pc := Gone))
  {
    var here, z := With(y, h, k), With(y, h, k.(pc := DropDestroy));
    Extend(here, h, choice, 0, here, z);
    DestroyStep(y, h, choice, k);
    Extend(here, h, choice, 1, z, With(y.(frame := y.frame.(destroyed := y.frame.destroyed + 1)), h, k.(pc := Gone)));
  }

  /** The last handle has given up its reference. */
  function Released(y: Lone, choice: bool): Lone {
    if y.frame.status.CompletedFinalSuspended? then y.(frame := y.frame.(destroyed := y.frame.destroyed + 1))
    else
      var z := if choice then Cancelled(y) else y;
      z.(frame := Abandoned(z.frame))
  }

  /** What a drop makes of the frame and asks, but for the handle's locals; `choice` is to cancel if abandoned. */
  function Dropped(x: Lone, choice: bool): Lone {
    var y := x.(frame := x.frame.(refs := x.frame.refs - 1));
    if x.frame.refs == 1 then Released(y, choice) else y
  }

  lemma DropsStatus(y: Lone, h: nat, choice: bool, k1: Holder) returns (n: nat, k: Holder)
    requires h < |y.frame.holders| && !y.frame.aborted && k1.last && k1.pc.DropStatus?
    requires SetStatus(y.frame.status, Status.Abandoned, false, true) != Abort
    ensures |Released(y, choice).frame.holders| == |y.frame.holders|
    ensures Alone(With(y, h, k1), h, choice, n) == With(Released(y, choice), h, k)
    ensures k.pc.Gone?
  {
    if y.frame.status.CompletedFinalSuspended? {
      k, n := k1.(pc := Gone), 2;
      DropsFinished(y, h, choice, k1);
    } else {
      n, k := DropsUnfinished(y, h, choice, k1);
    }
  }

  lemma DropsUnfinished(y: Lone, h: nat, choice: bool, k1: Holder) returns (n: nat, k: Holder)
    requires h < |y.frame.holders| && !y.frame.aborted && k1.last && k1.pc.DropStatus?
    requires SetStatus(y.frame.status, Status.Abandoned, false, true) != Abort
    requires !y.frame.status.CompletedFinalSuspended?
    ensures |Released(y, choice).frame.holders| == |y.frame.holders|
    ensures Alone(With(y, h, k1), h, choice, n) == With(Released(y, choice), h, k)
    ensures k.pc.Gone?
  {
    var here, z := With(y, h, k1), With(y, h, k1.(pc := DropAdvice));
    Extend(here, h, choice, 0, here, z);
    n, k := DropsLast(y, h, choice, k1);
    SameReleased(y, h, choice, k1);
    Chain(here, h, choice, 1, z, n, With(Released(y, choice), h, k));
    n := n + 1;
  }

  /**
   A dropped handle, alone: one reference less; the last one destroys a finished
   frame, and abandons any other, after a cancel if it is told to.
   */
  lemma DropAlone(x: Lone, v: View, h: nat, choice: bool) returns (n: nat, k: Holder)
    requires Inv(x.frame, v) && Enabled(x.frame, Begin(h, Drop))
    ensures Alone(x.(frame := Next(x.frame, Begin(h, Drop))), h, choice, n) == With(Dropped(x, choice), h, k)
    ensures k.pc.Gone?
  {
    var y := x.(frame := Next(x.frame, Begin(h, Drop)));
    Preserved(x.frame, v, Begin(h, Drop));
    n, k := Drops(y, Track(x.frame, v, Begin(h, Drop)), h, choice);
    SameDrop(x, y, h, choice, k);
  }

  lemma SamePut(f: Frame, h: nat, k: Holder, o: Outcome, destroyed: nat)
    requires h < |f.holders|
    ensures |Put(f, o).holders| == |f.holders|
    ensures Put(Hold(f, h, k), o).(destroyed := destroyed) == Hold(Put(f, o).(destroyed := destroyed), h, k)
  {
  }

  lemma SameAbandoned(f: Frame, h: nat, k: Holder)
    requires h < |f.holders|
    ensures |Abandoned(f).holders| == |f.holders| && Abandoned(Hold(f, h, k)) == Hold(Abandoned(f), h, k)
  {
    SamePut(f, h, k, SetStatus(f.status, Status.Abandoned, false, f.cancelled),
            f.destroyed + if Destroys(f) then 1 else 0);
  }

  lemma SameCancelled(x: Lone, h: nat, k: Holder)
    requires h < |x.frame.holders|
    ensures |Cancelled(x).frame.holders| == |x.frame.holders| && Cancelled(With(x, h, k)) == With(Cancelled(x), h, k)
  {
  }

  lemma SameReleased(x: Lone, h: nat, choice: bool, k: Holder)
    requires h < |x.frame.holders|
    ensures |Released(x, choice).frame.holders| == |x.frame.holders|
    ensures Released(With(x, h, k), choice) == With(Released(x, choice), h, k)
  {
    SameCancelled(x, h, k);
    SameAbandoned(if choice then Cancelled(x).frame else x.frame, h, k);
  }

  /** The handle's locals are nothing to what a drop does. */
  lemma SameDrop(x: Lone, y: Lone, h: nat, choice: bool, k: Holder)
    requires h < |x.frame.holders| == |y.frame.holders| && y == With(x, h, y.frame.holders[h])
    ensures |Dropped(y, choice).frame.holders| == |Dropped(x, choice).frame.holders| == |x.frame.holders|
    ensures With(Dropped(y, choice), h, k) == With(Dropped(x, choice), h, k)
  {
    var less := x.(frame := x.frame.(refs := x.frame.refs - 1));
    SameReleased(less, h, choice, y.frame.holders[h]);
    var z := if x.frame.refs == 1 then Released(less, choice) else less;
    assert Dropped(y, choice) == With(z, h, y.frame.holders[h]);
    assert z.frame.holders[h := y.frame.holders[h]][h := k] == z.frame.holders[h := k];
  }

  // ---------------------------------------------------------------------
  // From wherever the handle is
  // ---------------------------------------------------------------------

  /** Bounds the accesses that a handle has left. */
  function Left(f: Frame, k: Holder): nat {
    var w := 4 * |f.awaiters|;
    match k.pc
    case Holding => 0
    case CancelTest => w + 14
    case CancelSet => w + 13
    case CancelStatus => w + 12
    case CancelEmpty => w + 11
    case CancelPause => w + 10
    case CancelTake => w + if k.blocking then 7 else 5
    case CancelAwaiter => w + 8
    case CancelAgain => w + 6
    case CancelResume => 4
    case DropUnref => w + 17
    case DropStatus => w + 16
    case DropAdvice => w + 15
    case DropClear => 3
    case DropAbandon => 2
    case DropDestroy => 1
    case Gone => 0
  }

  predicate Closer(f: Frame, f': Frame, h: nat)
    requires h < |f.holders|
  {
    |f'.holders| == |f.holders| && Left(f', f'.holders[h]) < Left(f, f.holders[h])
  }

  lemma Nearer(f: Frame, h: nat, choice: bool)
    requires Enabled(f, HolderStep(h, choice)) && !HolderAccess(f, h, choice).aborted
    ensures Closer(f, HolderAccess(f, h, choice), h)
  {
    var pc := f.holders[h].pc;
    if Pausing(pc) {
      PauseNearer(f, h, choice);
    } else if InCancel(pc) {
      CancelNearer(f, h, choice);
    } else if pc.DropUnref? {
      UnrefNearer(f, h, choice);
    } else if pc.DropStatus? || pc.DropAdvice? {
      LooksNearer(f, h, choice);
    } else if pc.DropAbandon? {
      AbandonNearer(f, h, choice);
    } else {
      DropNearer(f, h, choice);
    }
  }

  lemma PauseNearer(f: Frame, h: nat, choice: bool)
    requires h < |f.holders| && Pausing(f.holders[h].pc) && !HolderAccess(f, h, choice).aborted
    ensures Closer(f, HolderAccess(f, h, choice), h)
  {
  }

  lemma CancelNearer(f: Frame, h: nat, choice: bool)
    requires h < |f.holders| && InCancel(f.holders[h].pc) && !Pausing(f.holders[h].pc)
    requires !HolderAccess(f, h, choice).aborted
    ensures Closer(f, HolderAccess(f, h, choice), h)
  {
  }

  lemma UnrefNearer(f: Frame, h: nat, choice: bool)
    requires h < |f.holders| && f.holders[h].pc.DropUnref? && !HolderAccess(f, h, choice).aborted
    ensures Closer(f, HolderAccess(f, h, choice), h)
  {
    assert f.refs > 0;
    assert HolderAccess(f, h, choice).awaiters == f.awaiters;
  }

  lemma LooksNearer(f: Frame, h: nat, choice: bool)
    requires h < |f.holders| && (f.holders[h].pc.DropStatus? || f.holders[h].pc.DropAdvice?)
    ensures Closer(f, HolderAccess(f, h, choice), h)
  {
    assert HolderAccess(f, h, choice).awaiters == f.awaiters;
  }

  lemma DropNearer(f: Frame, h: nat, choice: bool)
    requires h < |f.holders| && (f.holders[h].pc.DropClear? || f.holders[h].pc.DropDestroy?)
    ensures Closer(f, HolderAccess(f, h, choice), h)
  {
  }

  lemma AbandonNearer(f: Frame, h: nat, choice: bool)
    requires h < |f.holders| && f.holders[h].pc.DropAbandon?
    ensures Closer(f, HolderAccess(f, h, choice), h)
  {
    var f1 := Request(f, Status.Abandoned, false);
    SamePut(f, h, f.holders[h], SetStatus(f.status, Status.Abandoned, false, f.cancelled), f.destroyed);
    assert |f1.holders| == |f.holders|;
    assert HolderAccess(f, h, choice) == At(f1, h, if Destroys(f) then DropDestroy else Gone);
  }

  /**
   Wherever a handle is inside a cancel or a drop, it comes to the end of it if
   it moves alone, unless the program ends.
   */
  lemma {:induction false} EndsAlone(x: Lone, h: nat, choice: bool) returns (n: nat)
    requires h < |x.frame.holders| && !x.frame.aborted
    ensures var f := Alone(x, h, choice, n).frame;
            f.aborted || (h < |f.holders| && (f.holders[h].pc.Holding? || f.holders[h].pc.Gone?))
    decreases Left(x.frame, x.frame.holders[h])
  {
    var pc := x.frame.holders[h].pc;
    if pc.Holding? || pc.Gone? {
      n := 0;
    } else {
      var y := Forward(x, h, choice);
      n := 0;
      if !y.frame.aborted {
        NearerStep(x, h, choice);
        n := EndsAlone(y, h, choice);
      }
      FirstStep(x, h, choice, n);
      n := n + 1;
    }
  }

  lemma FirstStep(x: Lone, h: nat, choice: bool, n: nat)
    ensures Alone(x, h, choice, n + 1) == Alone(Forward(x, h, choice), h, choice, n)
  {
  }

  lemma NearerStep(x: Lone, h: nat, choice: bool)
    requires h < |x.frame.holders| && Enabled(x.frame, HolderStep(h, choice)) && !Forward(x, h, choice).frame.aborted
    ensures Closer(x.frame, Forward(x, h, choice).frame, h)
  {
    Nearer(x.frame, h, choice);
  }
}
