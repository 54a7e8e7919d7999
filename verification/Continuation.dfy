/**
 The continuation of a Task as a machine of interleaved accesses: a coroutine
 awaits it, its final awaiter takes the coroutine out of `m_continuation` to
 resume it, and any number of cancels may take it first.
 */
module Continuation {
  import opened Tally

  /** The next access of the awaiting coroutine. */
  datatype AwaiterPc =
    | Storing           // await_suspend: m_continuation = &coroutine()
    | Marking           // await_suspend: setMaybeBlocked(true)
    | Suspended         // until somebody resumes it
    | Clearing          // await_resume: m_task.continuation().store(nullptr)
    | Resuming          // await_resume: inside onResume
    | Resumed

  datatype TaskPc =
    | NotStarted        // until await_suspend schedules it or transfers to it
    | Running
    | TakingOut         // final_suspend: m_continuation.exchange(nullptr)
    | Handing           // final awaiter: continuation->schedule(), or the transfer to it
    | Finished

  datatype CancelPc =
    | Idle
    | Looking           // maybeBlocked()
    | Exchanging        // TaskAwaiterBase::cancel: m_continuation.exchange(nullptr)
    | Scheduling        // TaskAwaiterBase::cancel: continuationCoroutine->schedule()

  /** `cell`: m_continuation holds the coroutine; `resumptions` counts the calls that resume it. */
  datatype Await = Await(
    cell: bool, maybeBlocked: bool, awaiter: AwaiterPc, task: TaskPc, cancels: seq<CancelPc>, resumptions: nat)

  datatype Move = AwaiterStep | TaskStep | BeginCancel(c: nat) | CancelStep(c: nat)

  /** A cancel has the awaiter only while the coroutine has not left onResume. */
  predicate Enabled(a: Await, m: Move) {
    match m
    case AwaiterStep => !a.awaiter.Resumed? && (a.awaiter.Suspended? ==> a.resumptions > 0)
    case TaskStep => !a.task.Finished? && (a.task.NotStarted? ==> a.maybeBlocked)
    case BeginCancel(c) => c < |a.cancels| && a.cancels[c].Idle? && !a.awaiter.Resumed?
    case CancelStep(c) => c < |a.cancels| && !a.cancels[c].Idle?
  }

  function AwaiterAccess(a: Await): Await {
    match a.awaiter
    case Storing => a.(cell := true, awaiter := Marking)
    case Marking => a.(maybeBlocked := true, awaiter := Suspended)
    case Suspended => a.(awaiter := Clearing)
    case Clearing => a.(cell := false, awaiter := Resuming)
    case _ => a.(awaiter := Resumed)
  }

  function TaskAccess(a: Await): Await {
    match a.task
    case NotStarted => a.(task := Running)
    case Running => a.(task := TakingOut)
    case TakingOut => a.(cell := false, task := if a.cell then Handing else Finished)
    case _ => a.(resumptions := a.resumptions + 1, task := Finished)
  }

  function Goto(a: Await, c: nat, pc: CancelPc): Await
    requires c < |a.cancels|
  {
    a.(cancels := a.cancels[c := pc])
  }

  function CancelAccess(a: Await, c: nat): Await
    requires c < |a.cancels|
  {
    match a.cancels[c]
    case Idle => a
    case Looking => Goto(a, c, if a.maybeBlocked then Exchanging else Idle)
    case Exchanging => Goto(a.(cell := false), c, if a.cell then Scheduling else Idle)
    case Scheduling => Goto(a.(resumptions := a.resumptions + 1), c, Idle)
  }

  /** A move that is not enabled changes nothing. */
  function Next(a: Await, m: Move): Await {
    if !Enabled(a, m) then a else
    match m
    case AwaiterStep => AwaiterAccess(a)
    case TaskStep => TaskAccess(a)
    case BeginCancel(c) => Goto(a, c, Looking)
    case CancelStep(c) => CancelAccess(a, c)
  }

  ghost predicate Initial(a: Await) {
    && !a.cell && !a.maybeBlocked && a.awaiter.Storing? && a.task.NotStarted? && a.resumptions == 0
    && forall c :: 0 <= c < |a.cancels| ==> a.cancels[c].Idle?
  }

  // ---------------------------------------------------------------------
  // The invariant
  // ---------------------------------------------------------------------

  function Holds(): CancelPc -> int {
    (pc: CancelPc) => One(pc.Scheduling?)
  }

  /** The one right to resume the coroutine: in the cell, with the final awaiter, with a cancel, or used. */
  ghost function Rights(a: Await): int {
    One(a.cell) + One(a.task.Handing?) + Total(a.cancels, Holds()) + a.resumptions
  }

  ghost predicate Inv(a: Await) {
    && Rights(a) == One(!a.awaiter.Storing?)
    && (a.maybeBlocked <==> !a.awaiter.Storing? && !a.awaiter.Marking?)
    && (!a.task.NotStarted? ==> a.maybeBlocked)
    && (a.awaiter.Clearing? || a.awaiter.Resuming? || a.awaiter.Resumed? ==> a.resumptions == 1)
    && (a.task.Handing? || a.task.Finished? ==> !a.cell)
  }

  lemma HoldsNothing(a: Await)
    ensures Total(a.cancels, Holds()) >= 0
  {
    TotalNonNegative(a.cancels, Holds());
  }

  lemma InitialInv(a: Await)
    requires Initial(a)
    ensures Inv(a)
  {
    TotalZero(a.cancels, Holds());
  }

  lemma CancelPreserves(a: Await, c: nat, pc: CancelPc, a': Await)
    requires Inv(a) && c < |a.cancels| && a'.cancels == a.cancels[c := pc]
    requires a' == a.(cancels := a'.cancels, cell := a'.cell, resumptions := a'.resumptions) && (a'.cell ==> a.cell)
    requires One(a.cell) + Holds()(a.cancels[c]) + a.resumptions == One(a'.cell) + Holds()(pc) + a'.resumptions
    requires a'.resumptions >= a.resumptions
    ensures Inv(a')
  {
    TotalUpdate(a.cancels, Holds(), c, pc);
    HoldsNothing(a');
  }

  /** The invariant is kept by every move. */
  lemma Preserved(a: Await, m: Move)
    requires Inv(a)
    ensures Inv(Next(a, m))
  {
    HoldsNothing(a);
    if Enabled(a, m) {
      match m
      case BeginCancel(c) => CancelPreserves(a, c, Looking, Next(a, m));
      case CancelStep(c) => CancelPreserves(a, c, CancelAccess(a, c).cancels[c], CancelAccess(a, c));
      case _ =>
    }
  }

  // ---------------------------------------------------------------------
  // What the awaiting coroutine is promised
  // ---------------------------------------------------------------------

  function Execute(a: Await, moves: seq<Move>): Await {
    if moves == [] then a else Next(Execute(a, moves[..|moves| - 1]), moves[|moves| - 1])
  }

  lemma {:induction false} Reachable(a: Await, moves: seq<Move>)
    requires Initial(a)
    ensures Inv(Execute(a, moves))
  {
    if moves == [] {
      InitialInv(a);
    } else {
      Reachable(a, moves[..|moves| - 1]);
      Preserved(Execute(a, moves[..|moves| - 1]), moves[|moves| - 1]);
    }
  }

  /** Nobody is about to resume the coroutine. */
  ghost predicate NobodyHolds(a: Await) {
    !a.task.Handing? && forall c :: 0 <= c < |a.cancels| ==> !a.cancels[c].Scheduling?
  }

  /**
   However many cancels race with the final awaiter, the awaiting coroutine is
   resumed at most once, and exactly once when the awaited Task has finished and
   no cancel is about to resume it.
   */
  lemma {:induction false} ResumedExactlyOnce(a: Await, moves: seq<Move>)
    requires Initial(a)
    ensures Execute(a, moves).resumptions <= 1
    ensures Execute(a, moves).task.Finished? && NobodyHolds(Execute(a, moves)) ==> Execute(a, moves).resumptions == 1
  {
    Reachable(a, moves);
    var now := Execute(a, moves);
    HoldsNothing(now);
    if NobodyHolds(now) {
      TotalZero(now.cancels, Holds());
    }
  }

  /** A suspended coroutine can always still be resumed: it is in the cell, or somebody is about to resume it. */
  lemma {:induction false} NeverForgotten(a: Await, moves: seq<Move>)
    requires Initial(a) && Execute(a, moves).awaiter.Suspended? && Execute(a, moves).resumptions == 0
    ensures Execute(a, moves).cell || !NobodyHolds(Execute(a, moves))
    ensures Execute(a, moves).cell ==> !Execute(a, moves).task.Handing? && !Execute(a, moves).task.Finished?
  {
    Reachable(a, moves);
    if NobodyHolds(Execute(a, moves)) {
      TotalZero(Execute(a, moves).cancels, Holds());
    }
  }

  /** The store with which await_resume clears the cell finds it clear: it takes the coroutine from nobody. */
  lemma {:induction false} ClearingTakesNothing(a: Await, moves: seq<Move>)
    requires Initial(a) && Execute(a, moves).awaiter.Clearing?
    ensures !Execute(a, moves).cell && NobodyHolds(Execute(a, moves))
  {
    Reachable(a, moves);
    var now := Execute(a, moves);
    HoldsNothing(now);
    forall c | 0 <= c < |now.cancels|
      ensures !now.cancels[c].Scheduling?
    {
      TotalDominates(now.cancels, Holds(), c);
    }
  }
}
