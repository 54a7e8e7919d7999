/** What every run of a coroutine, its completion task and its handles keeps. */
module LifecycleTheorems {
  import opened Tally
  import opened CoroutineStatus
  import opened Lifecycle
  import opened LifecycleProof

  datatype Run = Run(frame: Frame, view: View)

  function Advance(r: Run, m: Move): Run {
    Run(Next(r.frame, m), Track(r.frame, r.view, m))
  }

  function Execute(f: Frame, moves: seq<Move>): Run {
    if moves == [] then Run(f, View(None, None))
    else Advance(Execute(f, moves[..|moves| - 1]), moves[|moves| - 1])
  }

  lemma {:induction false} Reachable(f: Frame, moves: seq<Move>)
    requires Initial(f)
    ensures Inv(Execute(f, moves).frame, Execute(f, moves).view)
  {
    if moves == [] {
      InitialInv(f);
    } else {
      Reachable(f, moves[..|moves| - 1]);
      var r := Execute(f, moves[..|moves| - 1]);
      Preserved(r.frame, r.view, moves[|moves| - 1]);
    }
  }

  // ---------------------------------------------------------------------
  // Destruction
  // ---------------------------------------------------------------------

  /** The frame exists, or has been destroyed once. */
  ghost predicate Once(f: Frame) {
    !f.aborted ==> f.destroyed <= 1
  }

  /** The frame has been destroyed exactly when nobody has an access left to make. */
  ghost predicate DestroyedByTheLast(f: Frame) {
    !f.aborted ==> (f.destroyed == 1 <==> forall m {:trigger Enabled(f, m)} :: !Enabled(f, m))
  }

  lemma NobodyLeft(f: Frame, v: View)
    requires Inv(f, v) && !f.aborted && f.destroyed == 1
    ensures forall m {:trigger Enabled(f, m)} :: !Enabled(f, m)
  {
    assert Summary(f, v).released;
    forall h | 0 <= h < |f.holders|
      ensures f.holders[h].pc.Gone?
    {
      assert HolderFits(f, v, h);
    }
  }

  lemma SomebodyLeft(f: Frame, v: View)
    requires Inv(f, v) && !f.aborted && f.destroyed == 0
    ensures exists m :: Enabled(f, m)
  {
    if v.last.None? {
      HolderLeft(f);
    } else if f.body.pc.Unstarted? || f.body.pc.Over? {
      var h := v.last.value;
      assert HolderFits(f, v, h);
      if f.holders[h].pc.Gone? {
        assert Enabled(f, HelperStep);
      } else {
        assert Enabled(f, HolderStep(h, false));
      }
    } else {
      assert Enabled(f, BodyStep(false));
    }
  }

  lemma HolderLeft(f: Frame)
    requires !f.aborted && 0 < f.refs == Total(f.holders, Reference())
    ensures exists m :: Enabled(f, m)
  {
    if forall h :: 0 <= h < |f.holders| ==> Reference()(f.holders[h]) == 0 {
      TotalZero(f.holders, Reference());
    } else {
      var h :| 0 <= h < |f.holders| && Counts(f.holders[h]);
      assert f.holders[h].pc.Holding? ==> Enabled(f, Begin(h, Drop));
      assert !f.holders[h].pc.Holding? ==> Enabled(f, HolderStep(h, false));
    }
  }

  lemma DestructionExact(f: Frame, v: View)
    requires Inv(f, v)
    ensures Once(f) && DestroyedByTheLast(f)
  {
    if !f.aborted {
      if f.destroyed == 1 {
        NobodyLeft(f, v);
      } else {
        SomebodyLeft(f, v);
      }
    }
  }

  /**
   The frame is destroyed at most once; nothing is left that could touch it
   afterwards; and whoever makes the last access has destroyed it.
   */
  lemma {:induction false} DestroyedExactlyOnce(f: Frame, moves: seq<Move>)
    requires Initial(f)
    ensures Once(Execute(f, moves).frame) && DestroyedByTheLast(Execute(f, moves).frame)
  {
    Reachable(f, moves);
    DestructionExact(Execute(f, moves).frame, Execute(f, moves).view);
  }

  /** A destruction has been made, or somebody's next access makes it. */
  predicate Decided(f: Frame) {
    f.destroyed > 0 || f.body.pc.FinalDestroy? || f.helper.HelperDestroy?
    || exists h :: 0 <= h < |f.holders| && f.holders[h].pc.DropDestroy?
  }

  /** The last handle has let go: no handle is held, and none is on its way to being dropped. */
  predicate LetGo(f: Frame) {
    forall h :: 0 <= h < |f.holders| ==> f.holders[h].pc.Gone? || f.holders[h].pc.DropDestroy?
  }

  lemma DecidedExactly(f: Frame, v: View)
    requires Inv(f, v) && !f.aborted
    ensures Decided(f) <==> LetGo(f) && ((Final(f) && Complete(f)) || f.body.pc.Unstarted?)
  {
    LetGoExactly(f, v);
    forall h | 0 <= h < |f.holders| && f.holders[h].pc.DropDestroy?
      ensures Summary(f, v).destroys
    {
      assert HolderFits(f, v, h);
    }
  }

  lemma LetGoExactly(f: Frame, v: View)
    requires Inv(f, v)
    ensures LetGo(f) <==> Summary(f, v).released
  {
    if Summary(f, v).released {
      forall h | 0 <= h < |f.holders|
        ensures f.holders[h].pc.Gone? || f.holders[h].pc.DropDestroy?
      {
        assert HolderFits(f, v, h);
      }
    } else if v.last.Some? {
      assert HolderFits(f, v, v.last.value);
    } else if LetGo(f) {
      TotalZero(f.holders, Reference());
    }
  }

  /**
   The frame is destroyed by whichever comes last of three events: the last
   handle lets go, the coroutine suspends for good, its completion is published.
   A destruction is decided on if and only if all three have happened, or the
   last handle has let go of a Task that nobody awaited.
   */
  lemma {:induction false} DestroyedByTheLastEvent(f: Frame, moves: seq<Move>)
    requires Initial(f) && !Execute(f, moves).frame.aborted
    ensures var now := Execute(f, moves).frame;
            Decided(now) <==> LetGo(now) && ((Final(now) && Complete(now)) || now.body.pc.Unstarted?)
  {
    Reachable(f, moves);
    DecidedExactly(Execute(f, moves).frame, Execute(f, moves).view);
  }

  /** The status word is exact: it tells which of final suspension, completion and release have happened. */
  lemma {:induction false} StatusExact(f: Frame, moves: seq<Move>)
    requires Initial(f) && !Execute(f, moves).frame.aborted
    ensures StatusTells(Execute(f, moves).frame, Summary(Execute(f, moves).frame, Execute(f, moves).view))
  {
    Reachable(f, moves);
  }

  // ---------------------------------------------------------------------
  // Ending the program
  // ---------------------------------------------------------------------

  /**
   setStatus ends the program, and an assertion fails, only in a cancel that
   pauses a coroutine which has finished since it looked.
   */
  lemma {:induction false} OnlyLatePauseAborts(f: Frame, moves: seq<Move>, m: Move)
    requires Initial(f) && !Execute(f, moves).frame.aborted
    ensures Next(Execute(f, moves).frame, m).aborted <==> Aborts(Execute(f, moves).frame, m)
  {
    Reachable(f, moves);
    Preserved(Execute(f, moves).frame, Execute(f, moves).view, m);
  }

  lemma Extend(f: Frame, moves: seq<Move>, m: Move)
    ensures Execute(f, moves + [m]) == Advance(Execute(f, moves), m)
  {
    assert (moves + [m])[..|moves|] == moves;
  }

  const FRESH := Frame(NotStarted, false, 1, [0], false, Body(Parked, 0, true, false), Off, [HOLDING], 0, false)

  /**
   A run that aborts: the coroutine suspends once (0-6), a cancel sees it
   suspended with an awaiter (7-11), the coroutine finishes (12-21), and the
   cancel asks for the pause.
   */
  function ScriptMove(i: nat): Move {
    if i < 7 then BodyStep(i == 3)
    else if i == 7 then Begin(0, Cancel)
    else if i < 12 then HolderStep(0, false)
    else if i < 22 then BodyStep(i == 17)
    else HolderStep(0, false)
  }

  function ScriptBody(i: nat): Body {
    Body(if i < 5 then [Parked, ResumeRemove, ResumeRun, Active, AwaitAdd][i]
         else if i < 7 then [AwaitReady, AwaitSuspend][i - 5]
         else if i < 13 then Parked
         else if i < 18 then [ResumeRemove, ResumeRun, Active, ReturnSet, FinalTest][i - 13]
         else if i < 22 then [FinalComplete, FinalSignal, FinalReady, FinalSuspend][i - 18]
         else Over,
         if i < 5 then 0 else 1, true, false)
  }

  function ScriptStatus(i: nat): Status {
    if i < 3 then NotStarted
    else if i < 7 then Running
    else if i < 15 then Suspended
    else if i < 17 then Running
    else if i < 19 then Returned
    else if i < 22 then ReturnedCompleted
    else CompletedFinalSuspended
  }

  function ScriptHolder(i: nat): HolderPc {
    if i < 8 then Holding
    else if i < 12 then [CancelTest, CancelSet, CancelStatus, CancelEmpty][i - 8]
    else CancelPause
  }

  function ScriptFrame(i: nat): Frame {
    FRESH.(body := ScriptBody(i), status := ScriptStatus(i), cancelled := i >= 10,
           holders := [HOLDING.(pc := ScriptHolder(i))],
           awaiters := if i < 2 then [0] else if i < 5 then [] else if i < 14 then [1] else [])
  }

  lemma ScriptStarts(i: nat)
    requires i < 7
    ensures Next(ScriptFrame(i), ScriptMove(i)) == ScriptFrame(i + 1)
  {
  }

  lemma ScriptLooks(i: nat)
    requires 7 <= i < 12
    ensures Next(ScriptFrame(i), ScriptMove(i)) == ScriptFrame(i + 1)
  {
  }

  lemma ScriptReturns(i: nat)
    requires 12 <= i < 17
    ensures Next(ScriptFrame(i), ScriptMove(i)) == ScriptFrame(i + 1)
  {
  }

  lemma ScriptFinishes(i: nat)
    requires 17 <= i < 22
    ensures Next(ScriptFrame(i), ScriptMove(i)) == ScriptFrame(i + 1)
  {
  }

  lemma {:induction false} ScriptRun(n: nat) returns (moves: seq<Move>)
    requires n <= 22
    ensures Execute(FRESH, moves).frame == ScriptFrame(n)
  {
    if n == 0 {
      moves := [];
    } else {
      var before := ScriptRun(n - 1);
      var i := n - 1;
      if i < 7 {
        ScriptStarts(i);
      } else if i < 12 {
        ScriptLooks(i);
      } else if i < 17 {
        ScriptReturns(i);
      } else {
        ScriptFinishes(i);
      }
      Extend(FRESH, before, ScriptMove(i));
      moves := before + [ScriptMove(i)];
    }
  }

  /**
   A late pause can happen: the coroutine finishes between a cancel's look at its
   status and the request to pause it.
   */
  lemma LatePauseAborts() returns (moves: seq<Move>)
    ensures Initial(FRESH) && Execute(FRESH, moves).frame.aborted
  {
    var before := ScriptRun(22);
    Extend(FRESH, before, ScriptMove(22));
    moves := before + [ScriptMove(22)];
  }

  // ---------------------------------------------------------------------
  // The pause
  // ---------------------------------------------------------------------

  /**
   While a cancel is between its two requests the coroutine stays inside
   onResume or short of it, and an awaiter the cancel has taken from the list
   belongs to the await that the coroutine has not left.
   */
  ghost predicate PauseSafe(f: Frame) {
    && |f.awaiters| <= 1
    && forall h :: 0 <= h < |f.holders| && Pausing(f.holders[h].pc) ==>
         (f.status.PauseOnRunning? || f.status.Paused?)
         && (Resuming(f.body.pc) || f.body.pc.ResumeSpin?)
         && (f.holders[h].pc.CancelAwaiter? ==> f.body.listed && f.holders[h].taken == f.body.round)
  }

  /** A paused coroutine has a cancel that will let it go. */
  ghost predicate PauseEnds(f: Frame) {
    f.status.PauseOnRunning? || f.status.Paused? ==> exists h :: 0 <= h < |f.holders| && Pausing(f.holders[h].pc)
  }

  lemma Paused(f: Frame, v: View)
    requires Inv(f, v) && !f.aborted
    ensures PauseSafe(f) && PauseEnds(f)
  {
    forall h | 0 <= h < |f.holders| && Pausing(f.holders[h].pc)
      ensures Summary(f, v).pause && HolderFits(f, v, h) && !Summary(f, v).released
    {
      assert HolderFits(f, v, h);
      NotReleased(f, v, h);
    }
  }

  /** The pause handshake. */
  lemma {:induction false} PauseHandshake(f: Frame, moves: seq<Move>)
    requires Initial(f) && !Execute(f, moves).frame.aborted
    ensures PauseSafe(Execute(f, moves).frame) && PauseEnds(Execute(f, moves).frame)
  {
    Reachable(f, moves);
    Paused(Execute(f, moves).frame, Execute(f, moves).view);
  }

  /** A cancel returns with the coroutine neither paused nor asked to pause. */
  lemma {:induction false} CancelLeavesUnpaused(f: Frame, moves: seq<Move>, h: nat, choice: bool)
    requires Initial(f)
    requires var g, g' := Execute(f, moves).frame, Next(Execute(f, moves).frame, HolderStep(h, choice));
             !g'.aborted && h < |g.holders| == |g'.holders| && InCancel(g.holders[h].pc) && !InCancel(g'.holders[h].pc)
    ensures var g' := Next(Execute(f, moves).frame, HolderStep(h, choice));
            !g'.status.PauseOnRunning? && !g'.status.Paused?
  {
    Reachable(f, moves);
    var r := Execute(f, moves);
    var m := HolderStep(h, choice);
    Preserved(r.frame, r.view, m);
    CancelEnds(r.frame, r.view, h, choice);
    Paused(Next(r.frame, m), Track(r.frame, r.view, m));
  }

  lemma CancelEnds(f: Frame, v: View, h: nat, choice: bool)
    requires Inv(f, v) && !f.aborted && h < |f.holders| && InCancel(f.holders[h].pc)
    requires var f' := Next(f, HolderStep(h, choice)); |f'.holders| == |f.holders| && !InCancel(f'.holders[h].pc)
    requires Inv(Next(f, HolderStep(h, choice)), Track(f, v, HolderStep(h, choice)))
    ensures Track(f, v, HolderStep(h, choice)).canceller == None
    ensures !Summary(Next(f, HolderStep(h, choice)), Track(f, v, HolderStep(h, choice))).pause
  {
  }
}
