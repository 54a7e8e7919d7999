/** What owners and completion counts promise, over every run of any number of coroutines and threads. */
module OwnershipTheorems {
  import opened Tally
  import opened Ownership
  import opened OwnershipProof

  datatype Run = Run(system: System, left: View)

  function Advance(r: Run, m: Move): Run {
    Run(Next(r.system, m), Track(r.system, r.left, m))
  }

  function Execute(s: System, moves: seq<Move>): Run {
    if moves == [] then Run(s, seq(|s.coroutines|, c => None))
    else Advance(Execute(s, moves[..|moves| - 1]), moves[|moves| - 1])
  }

  lemma {:induction false} Reachable(s: System, moves: seq<Move>)
    requires Initial(s)
    ensures Inv(Execute(s, moves).system, Execute(s, moves).left)
  {
    if moves == [] {
      InitialInv(s);
    } else {
      Reachable(s, moves[..|moves| - 1]);
      var r := Execute(s, moves[..|moves| - 1]);
      Preserved(r.system, r.left, moves[|moves| - 1]);
    }
  }

  // ---------------------------------------------------------------------
  // The counts
  // ---------------------------------------------------------------------

  /** Nobody names `c` as its owner, carries a charge to it, or guards it; and it has given up its token. */
  ghost predicate Unreferenced(s: System, c: nat) {
    c < |s.coroutines| ==>
      && !Token(s.coroutines[c])
      && (forall d :: 0 <= d < |s.coroutines| ==>
            s.coroutines[d].owner != Some(c)
                && (Withdrawing(s.coroutines[d].stage) ==> s.coroutines[d].former != Some(c)))
      && (forall t :: 0 <= t < |s.threads| ==>
           !(Guarding(s.threads[t].pc) && s.threads[t].target == c) && ThreadCharges(c)(s.threads[t]) == 0)
  }

  lemma NothingCharged(s: System, c: nat)
    requires c < |s.coroutines| && !Token(s.coroutines[c]) && Charges(s, c) == 0 && Total(s.threads, Guards(c)) == 0
    ensures Unreferenced(s, c)
  {
    TotalNonNegative(s.threads, ThreadCharges(c));
    TotalNonNegative(s.coroutines, OwnedCharges(c));
    forall d | 0 <= d < |s.coroutines|
      ensures OwnedCharges(c)(s.coroutines[d]) == 0
    {
      TotalDominates(s.coroutines, OwnedCharges(c), d);
    }
    forall t | 0 <= t < |s.threads|
      ensures Guards(c)(s.threads[t]) == 0 && ThreadCharges(c)(s.threads[t]) == 0
    {
      TotalDominates(s.threads, Guards(c), t);
      TotalDominates(s.threads, ThreadCharges(c), t);
    }
  }

  lemma UnreferencedZero(s: System, c: nat)
    requires Conserved(s) && c < |s.coroutines| && Unreferenced(s, c)
    ensures Count(s, c) == 0
  {
    assert Count(s, c) == Balance(s, c);
    TotalZero(s.threads, ThreadCharges(c));
    TotalZero(s.coroutines, OwnedCharges(c));
    TotalZero(s.threads, Guards(c));
  }

  /** Counts are conserved at every step, and a count is zero exactly when nothing refers to the coroutine. */
  lemma {:induction false} CountsConserved(s: System, moves: seq<Move>, c: nat)
    requires Initial(s) && c < |s.coroutines|
    ensures var now := Execute(s, moves).system;
            Conserved(now) && (c < |now.coroutines| ==> (Count(now, c) == 0 <==> Unreferenced(now, c)))
  {
    Reachable(s, moves);
    var now := Execute(s, moves).system;
    if c < |now.coroutines| {
      if Count(now, c) == 0 {
        ZeroMeansNothing(now, c);
        NothingCharged(now, c);
      } else if Unreferenced(now, c) {
        UnreferencedZero(now, c);
      }
    }
  }

  /** A guard keeps the counts conserved if and only if its countUp does not find the count at its maximum. */
  lemma GuardConservesExactly(s: System, t: nat)
    requires Conserved(s) && t < |s.threads| && s.threads[t].pc.Up? && s.threads[t].target < |s.coroutines|
    requires Count(s, s.threads[t].target) <= s.max && s.max > 0
    ensures Conserved(Access(s, t)) <==> Count(s, s.threads[t].target) < s.max
  {
    var x, s' := s.threads[t].target, Access(s, t);
    if Count(s, x) < s.max {
      GuardUpShape(s, t);
      ThreadConserves(s, s', t, s'.threads[t], x, s.coroutines[x]);
    } else {
      assert Count(s, x) == Balance(s, x);
      assert s.coroutines[x := s.coroutines[x]] == s.coroutines;
      ThreadCharge(s, s', t, s'.threads[t], x, s.coroutines[x], x);
      assert Balance(s', x) == Balance(s, x) + 1;
    }
  }

  /**
   Whatever still charges a coroutine finds it before its completion: it has not
   finished, or its completion task is waiting. So whoever signals an owner, or
   counts it down, does so while the owner is in no position to be destroyed.
   */
  lemma {:induction false} ChargedOwnerWaits(s: System, moves: seq<Move>, c: nat)
    requires Initial(s)
    requires c < |Execute(s, moves).system.coroutines| && Charges(Execute(s, moves).system, c) > 0
    ensures MayHaveChildren(Execute(s, moves).system.coroutines[c].stage)
  {
    Reachable(s, moves);
    assert CoroutineFits(Execute(s, moves).system, Execute(s, moves).left, c);
  }

  // ---------------------------------------------------------------------
  // Each call of setOwner
  // ---------------------------------------------------------------------

  /** The calls one thread has made so far, its exchanges, and how often it found its target completed. */
  datatype Calls = Calls(system: System, begun: nat, exchanged: nat, refused: nat)

  predicate Moves(s: System, m: Move, t: nat) {
    m == ThreadStep(t) && Enabled(s, m) && s.threads[t].target < |s.coroutines|
  }

  /** The thread's exchange puts the owner it was called with in place. */
  predicate Installs(s: System, m: Move, t: nat) {
    && Moves(s, m, t) && s.threads[t].pc.Exchange?
    && s.threads[t].target < |Next(s, m).coroutines|
    && Next(s, m).coroutines[s.threads[t].target].owner == s.threads[t].newOwner
  }

  /** The thread finds the count of its target at zero, at the look or at the guard. */
  predicate Refuses(s: System, m: Move, t: nat) {
    Moves(s, m, t) && (s.threads[t].pc.Look? || s.threads[t].pc.Up?) && Count(s, s.threads[t].target) == 0
  }

  function Charge(a: Calls, m: Move, t: nat): Calls {
    Calls(Next(a.system, m),
          a.begun + if m.SetOwner? && m.t == t && Enabled(a.system, m) then 1 else 0,
          a.exchanged + if Installs(a.system, m, t) then 1 else 0,
          a.refused + if Refuses(a.system, m, t) then 1 else 0)
  }

  function CallsOf(s: System, moves: seq<Move>, t: nat): Calls {
    if moves == [] then Calls(s, 0, 0, 0)
    else Charge(CallsOf(s, moves[..|moves| - 1], t), moves[|moves| - 1], t)
  }

  predicate Undecided(pc: Pc) {
    pc.Look? || pc.Up? || pc.TakeCheck? || pc.TakeUp? || pc.Exchange?
  }

  /** Each call that is past its decision has put its owner in place once, or found its target completed. */
  ghost predicate Paid(a: Calls, t: nat) {
    && t < |a.system.threads|
    && a.begun == a.exchanged + a.refused + One(Undecided(a.system.threads[t].pc))
  }

  lemma PaidStep(a: Calls, v: View, m: Move, t: nat)
    requires Inv(a.system, v) && Paid(a, t)
    ensures Paid(Charge(a, m, t), t)
  {
    var s := a.system;
    if m == ThreadStep(t) && Enabled(s, m) {
      AccessPreserves(s, v, t);
      PaidAccess(a, t);
    } else if m.ThreadStep? && Enabled(s, m) {
      AccessPreserves(s, v, m.t);
      AccessThreads(s, m.t);
    } else if m.Step? && Enabled(s, m) {
      StageThreads(s, m.c);
    }
  }

  lemma PaidAccess(a: Calls, t: nat)
    requires Paid(a, t) && Moves(a.system, ThreadStep(t), t) && !Access(a.system, t).failed
    ensures Paid(Charge(a, ThreadStep(t), t), t)
  {
    AccessParts(a.system, t);
  }

  /**
   In every run, each setOwner that a thread has returned from has put the new
   owner in place exactly once, or has found its target completed and done nothing.
   */
  lemma {:induction false} CallsPaid(s: System, moves: seq<Move>, t: nat)
    requires Initial(s) && t < |s.threads|
    ensures Paid(CallsOf(s, moves, t), t) && CallsOf(s, moves, t).system == Execute(s, moves).system
  {
    if moves != [] {
      var before := moves[..|moves| - 1];
      CallsPaid(s, before, t);
      Reachable(s, before);
      PaidStep(CallsOf(s, before, t), Execute(s, before).left, moves[|moves| - 1], t);
    }
  }

  // ---------------------------------------------------------------------
  // Assertions
  // ---------------------------------------------------------------------

  /** The owner that a move puts in place of the one `c` has, by setOwner or by a signal. */
  function ExchangedBy(s: System, m: Move, c: nat): Option<Option<nat>> {
    if !Enabled(s, m) || c >= |s.coroutines| then None else
    match m
    case Step(d) =>
      if d == c && (s.coroutines[c].stage.Signal? || s.coroutines[c].stage.TaskSignal?) then Some(None) else None
    case ThreadStep(t) =>
      if s.threads[t].target != c then None
      else if s.threads[t].pc.Exchange? then Some(s.threads[t].newOwner)
      else if s.threads[t].pc.ThreadSignal? then Some(None)
      else None
    case _ => None
  }

  /** The last exchange on the owner of `c` in a run was that of a setOwner which names an owner. */
  predicate LastNamed(s: System, moves: seq<Move>, c: nat) {
    moves != [] &&
    var exchanged := ExchangedBy(Execute(s, moves[..|moves| - 1]).system, moves[|moves| - 1], c);
    if exchanged.Some? then exchanged.value.Some? else LastNamed(s, moves[..|moves| - 1], c)
  }

  /**
   The assertions of setOwner, signalOwner and the final awaiters hold in every
   run, except two of a SyncTask: the first fails if and only if another thread
   inside setOwner holds a guard on it, the second if and only if the last
   exchange on its owner was that of a setOwner which names an owner.
   */
  ghost predicate FailsExactly(s: System, moves: seq<Move>, m: Move) {
    var now := Execute(s, moves).system;
    Next(now, m).failed <==>
      (Enabled(now, m) && m.Step?
       && ((now.coroutines[m.c].stage.AssertZero?
            && exists t :: 0 <= t < |now.threads| && Guarding(now.threads[t].pc) && now.threads[t].target == m.c)
           || (now.coroutines[m.c].stage.TaskAssert? && LastNamed(s, moves, m.c))))
  }

  lemma OwnerStep(s: System, m: Move, c: nat)
    requires c < |s.coroutines| == |Next(s, m).coroutines|
    ensures Next(s, m).coroutines[c].owner ==
            if ExchangedBy(s, m, c).Some? then ExchangedBy(s, m, c).value else s.coroutines[c].owner
  {
    if Next(s, m).coroutines[c].owner != s.coroutines[c].owner {
      OwnerChange(s, m, c);
    }
  }

  /** A coroutine has an owner exactly when the last exchange named one. */
  lemma {:induction false} OwnerWasNamed(s: System, moves: seq<Move>, c: nat)
    requires Initial(s) && c < |s.coroutines|
    ensures |Execute(s, moves).system.coroutines| == |s.coroutines|
    ensures Execute(s, moves).system.coroutines[c].owner.Some? <==> LastNamed(s, moves, c)
  {
    if moves != [] {
      var before := Execute(s, moves[..|moves| - 1]).system;
      OwnerWasNamed(s, moves[..|moves| - 1], c);
      SameCoroutines(before, moves[|moves| - 1]);
      OwnerStep(before, moves[|moves| - 1], c);
    }
  }

  lemma SameCoroutines(s: System, m: Move)
    ensures |Next(s, m).coroutines| == |s.coroutines| && |Next(s, m).threads| == |s.threads|
  {
  }

  lemma GuardedExactly(s: System, v: View, c: nat)
    requires Inv(s, v) && c < |s.coroutines| && s.coroutines[c].stage.AssertZero?
    ensures Count(s, c) != 0 <==>
            exists t :: 0 <= t < |s.threads| && Guarding(s.threads[t].pc) && s.threads[t].target == c
  {
    assert CoroutineFits(s, v, c);
    assert Count(s, c) == Balance(s, c);
    if Count(s, c) != 0 {
      TotalNonNegative(s.threads, Guards(c));
      var t := TotalSource(s.threads, Guards(c));
      assert Guarding(s.threads[t].pc) && s.threads[t].target == c;
    } else {
      ZeroMeansNothing(s, c);
      NothingCharged(s, c);
    }
  }

  lemma {:induction false} SizeKept(s: System, moves: seq<Move>)
    ensures |Execute(s, moves).system.coroutines| == |s.coroutines| && |Execute(s, moves).system.threads| == |s.threads|
  {
    if moves != [] {
      SizeKept(s, moves[..|moves| - 1]);
      SameCoroutines(Execute(s, moves[..|moves| - 1]).system, moves[|moves| - 1]);
    }
  }

  lemma {:induction false} AssertionsExact(s: System, moves: seq<Move>, m: Move)
    requires Initial(s) && !Execute(s, moves).system.failed
    ensures FailsExactly(s, moves, m)
  {
    Reachable(s, moves);
    var r := Execute(s, moves);
    Preserved(r.system, r.left, m);
    SizeKept(s, moves);
    if Enabled(r.system, m) && m.Step? {
      OwnerWasNamed(s, moves, m.c);
    }
    if Enabled(r.system, m) && m.Step? && r.system.coroutines[m.c].stage.AssertZero? {
      GuardedExactly(r.system, r.left, m.c);
    }
  }

  // ---------------------------------------------------------------------
  // Which calls make the owner assertion fail
  // ---------------------------------------------------------------------

  /** No call of setOwner names an owner for `c`. */
  ghost predicate NeverNamed(moves: seq<Move>, c: nat) {
    forall i :: 0 <= i < |moves| ==> !(moves[i].SetOwner? && moves[i].target == c && moves[i].newOwner.Some?)
  }

  /** `c` has no owner, and no call in flight names one. */
  ghost predicate Unnamed(s: System, c: nat) {
    && (c < |s.coroutines| ==> s.coroutines[c].owner == None)
    && forall t :: 0 <= t < |s.threads| && s.threads[t].target == c ==> s.threads[t].newOwner == None
  }

  lemma UnnamedStep(s: System, m: Move, c: nat)
    requires Unnamed(s, c) && !(m.SetOwner? && m.target == c && m.newOwner.Some?)
    ensures Unnamed(Next(s, m), c)
  {
    SameCoroutines(s, m);
    if c < |s.coroutines| {
      OwnerStep(s, m, c);
    }
    forall t | 0 <= t < |s.threads| && Next(s, m).threads[t].target == c
      ensures Next(s, m).threads[t].newOwner == None
    {
      ThreadNames(s, m, t);
    }
  }

  /** Only a call gives a thread a target and an owner to name. */
  lemma ThreadNames(s: System, m: Move, t: nat)
    requires t < |s.threads| == |Next(s, m).threads|
    ensures var th, th' := s.threads[t], Next(s, m).threads[t];
            (th'.target == th.target && th'.newOwner == th.newOwner && (th.pc.Idle? ==> th'.pc.Idle?)) || th' == IDLE
            || (m.SetOwner? && m.target == th'.target && m.newOwner == th'.newOwner)
  {
    if Enabled(s, m) {
      match m
      case Step(c) => StageThreads(s, c);
      case ThreadStep(u) =>
        if s.threads[u].target < |s.coroutines| {
          AccessThreads(s, u);
        }
      case _ =>
    }
  }

  lemma StageThreads(s: System, c: nat)
    requires c < |s.coroutines|
    ensures StageStep(s, c).threads == s.threads
  {
  }

  lemma AccessThreads(s: System, t: nat)
    requires t < |s.threads| && s.threads[t].target < |s.coroutines|
    ensures |Access(s, t).threads| == |s.threads| && Access(s, t).threads == s.threads[t := Access(s, t).threads[t]]
    ensures var th, th' := s.threads[t], Access(s, t).threads[t];
            (th'.target == th.target && th'.newOwner == th.newOwner && (th.pc.Idle? ==> th'.pc.Idle?)) || th' == IDLE
  {
  }

  lemma {:induction false} UnnamedRun(s: System, moves: seq<Move>, c: nat)
    requires Initial(s) && NeverNamed(moves, c)
    ensures Unnamed(Execute(s, moves).system, c)
  {
    if moves != [] {
      var before := moves[..|moves| - 1];
      assert forall i :: 0 <= i < |before| ==> before[i] == moves[i];
      UnnamedRun(s, before, c);
      UnnamedStep(Execute(s, before).system, moves[|moves| - 1], c);
    }
  }

  /** Whether the completion task of `c` is at the assertion of a null owner and fails it. */
  predicate FailsAtOwner(s: System, c: nat) {
    Enabled(s, Step(c)) && s.coroutines[c].stage.TaskAssert? && Next(s, Step(c)).failed
  }

  lemma OwnerFails(s: System, c: nat)
    ensures FailsAtOwner(s, c) <==>
            Enabled(s, Step(c)) && s.coroutines[c].stage.TaskAssert? && s.coroutines[c].owner.Some?
  {
  }

  /** A SyncTask for which no call names an owner never fails the assertion of a null owner. */
  lemma {:induction false} UnownedNeverFails(s: System, moves: seq<Move>, c: nat)
    requires Initial(s) && NeverNamed(moves, c)
    ensures !FailsAtOwner(Execute(s, moves).system, c)
  {
    UnnamedRun(s, moves, c);
    OwnerFails(Execute(s, moves).system, c);
  }

  /** Stages before a completion task has looked at the owner. */
  predicate BeforeAssert(stage: Stage) {
    MayHaveChildren(stage) || stage.TaskAssert?
  }

  /** No call on `c` is in flight, and unless it has completed by itself it still has its owner. */
  ghost predicate KeepsOwner(s: System, c: nat) {
    && (c < |s.coroutines| && BeforeAssert(s.coroutines[c].stage) ==> s.coroutines[c].owner.Some?)
    && forall t :: 0 <= t < |s.threads| && !s.threads[t].pc.Idle? ==> s.threads[t].target != c
  }

  lemma KeepsOwnerStep(s: System, m: Move, c: nat)
    requires KeepsOwner(s, c) && !(m.SetOwner? && m.target == c)
    ensures KeepsOwner(Next(s, m), c)
  {
    SameCoroutines(s, m);
    if c < |s.coroutines| {
      OwnerStep(s, m, c);
      StagesForward(s, m, c);
    }
    forall t | 0 <= t < |s.threads| && !Next(s, m).threads[t].pc.Idle?
      ensures Next(s, m).threads[t].target != c
    {
      ThreadNames(s, m, t);
    }
  }

  /** Nobody comes back to a stage before the assertion. */
  lemma StagesForward(s: System, m: Move, c: nat)
    requires c < |s.coroutines| == |Next(s, m).coroutines|
    ensures BeforeAssert(Next(s, m).coroutines[c].stage) ==> BeforeAssert(s.coroutines[c].stage)
  {
    if Enabled(s, m) {
      match m
      case Step(d) =>
        StageAlone(s, d);
        StageForward(s, d);
      case ThreadStep(t) =>
        if s.threads[t].target < |s.coroutines| {
          AccessOwners(s, t);
        }
      case _ =>
    }
  }

  lemma {:induction false} KeepsOwnerRun(s: System, moves: seq<Move>, later: seq<Move>, c: nat)
    requires KeepsOwner(Execute(s, moves).system, c)
    requires forall i :: 0 <= i < |later| ==> !(later[i].SetOwner? && later[i].target == c)
    ensures KeepsOwner(Execute(s, moves + later).system, c)
    decreases |later|
  {
    if later == [] {
      assert moves + later == moves;
    } else {
      var before := later[..|later| - 1];
      assert (moves + later)[..|moves + later| - 1] == moves + before;
      assert forall i :: 0 <= i < |before| ==> before[i] == later[i];
      KeepsOwnerRun(s, moves, before, c);
      KeepsOwnerStep(Execute(s, moves + before).system, later[|later| - 1], c);
    }
  }

  /**
   A SyncTask whose owner is in place when the calls on it have ended, and on
   which no further call is made, fails the assertion whenever it comes to it.
   */
  lemma {:induction false} OwnedAlwaysFails(s: System, moves: seq<Move>, later: seq<Move>, c: nat)
    requires KeepsOwner(Execute(s, moves).system, c)
    requires forall i :: 0 <= i < |later| ==> !(later[i].SetOwner? && later[i].target == c)
    ensures var now := Execute(s, moves + later).system;
            Enabled(now, Step(c)) && now.coroutines[c].stage.TaskAssert? ==> FailsAtOwner(now, c)
  {
    KeepsOwnerRun(s, moves, later, c);
    OwnerFails(Execute(s, moves + later).system, c);
  }

  // ---------------------------------------------------------------------
  // Every owner gets its charge back
  // ---------------------------------------------------------------------

  /** Nobody is in the middle of something with `c`, and no completion task of its own is to come. */
  ghost predicate NobodyBusy(s: System, c: nat) {
    && (c < |s.coroutines| ==> s.coroutines[c].stage.Done?)
    && forall t :: 0 <= t < |s.threads| && !s.threads[t].pc.Idle? ==> s.threads[t].target != c
  }

  lemma QuietOwner(s: System, v: View, c: nat)
    requires Inv(s, v) && c < |s.coroutines| && NobodyBusy(s, c)
    ensures s.coroutines[c].owner == None && Charges(s, c) == 0
  {
    assert CoroutineFits(s, v, c);
    assert !SomebodySignals(s, c);
  }

  /**
   A coroutine that is done and left alone has no owner and no children,
   whichever calls of setOwner raced with its end.
   */
  lemma {:induction false} OwnerReleased(s: System, moves: seq<Move>, c: nat)
    requires Initial(s)
    requires var now := Execute(s, moves).system; c < |now.coroutines| && NobodyBusy(now, c)
    ensures var now := Execute(s, moves).system;
            now.coroutines[c].owner == None && Count(now, c) == 0 && Unreferenced(now, c)
  {
    Reachable(s, moves);
    var r := Execute(s, moves);
    QuietOwner(r.system, r.left, c);
    assert Count(r.system, c) == Balance(r.system, c);
    NoGuards(r.system, c);
    NothingCharged(r.system, c);
  }

  lemma NoGuards(s: System, c: nat)
    requires NobodyBusy(s, c)
    ensures Total(s.threads, Guards(c)) == 0
  {
    TotalZero(s.threads, Guards(c));
  }

  // ---------------------------------------------------------------------
  // The waiter of a SyncTask
  // ---------------------------------------------------------------------

  /** Where a coroutine is attached: to its owner, or to the owner that it signalled and left. */
  function Link(s: System, left: View, d: nat): Option<nat> {
    if d >= |s.coroutines| || d >= |left| then None
    else if s.coroutines[d].owner.Some? then s.coroutines[d].owner
    else left[d]
  }

  /** `d` is attached below `root`, `depth` links away. */
  predicate Below(s: System, left: View, d: nat, root: nat, depth: nat)
    decreases depth
  {
    Link(s, left, d).Some?
    && (Link(s, left, d).value == root || (depth > 0 && Below(s, left, Link(s, left, d).value, root, depth - 1)))
  }

  /** Nobody names a closed coroutine as its owner. */
  lemma ClosedOwnsNobody(s: System, c: nat, d: nat)
    requires Closed(s, c) || (c < |s.coroutines| && Charges(s, c) == 0)
    requires d < |s.coroutines|
    ensures s.coroutines[d].owner != Some(c)
  {
    TotalNonNegative(s.threads, ThreadCharges(c));
    TotalNonNegative(s.coroutines, OwnedCharges(c));
    TotalDominates(s.coroutines, OwnedCharges(c), d);
  }

  lemma {:induction false} SubtreeClosed(s: System, v: View, d: nat, root: nat, depth: nat)
    requires Inv(s, v) && root < |s.coroutines| && Charges(s, root) == 0 && Below(s, v, d, root, depth)
    ensures Closed(s, d)
    decreases depth
  {
    var p := Link(s, v, d).value;
    if p != root {
      SubtreeClosed(s, v, p, root, depth - 1);
    }
    ClosedOwnsNobody(s, p, d);
    assert CoroutineFits(s, v, d);
  }

  /** When a SyncTask has signalled its waiter, everything attached below it has finished and has no children. */
  lemma {:induction false} RootSignalsLast(s: System, moves: seq<Move>, root: nat, d: nat, depth: nat)
    requires Initial(s)
    requires var r := Execute(s, moves);
             && root < |r.system.coroutines| && r.system.coroutines[root].event
             && Below(r.system, r.left, d, root, depth)
    ensures Closed(Execute(s, moves).system, d)
  {
    Reachable(s, moves);
    var r := Execute(s, moves);
    assert CoroutineFits(r.system, r.left, root);
    SubtreeClosed(r.system, r.left, d, root, depth);
  }

  /**
   A coroutine leaves its owner, other than by a call that moves or clears
   ownership, only when it has finished and has no children.
   */
  lemma {:induction false} LeavesWhenClosed(s: System, moves: seq<Move>, m: Move, d: nat)
    requires Initial(s)
    requires var now, next := Execute(s, moves).system, Next(Execute(s, moves).system, m);
             d < |now.coroutines| == |next.coroutines| && next.coroutines[d].owner != now.coroutines[d].owner
    ensures var now := Execute(s, moves).system;
            (m.ThreadStep? && now.threads[m.t].pc.Exchange?) || Closed(now, d)
  {
    Reachable(s, moves);
    var r := Execute(s, moves);
    OwnerChange(r.system, m, d);
    assert CoroutineFits(r.system, r.left, d);
    if m.ThreadStep? {
      assert ThreadFits(r.system, r.system.threads[m.t]);
    }
  }

  lemma OwnerChange(s: System, m: Move, d: nat)
    requires d < |s.coroutines| == |Next(s, m).coroutines| && Next(s, m).coroutines[d].owner != s.coroutines[d].owner
    ensures Enabled(s, m)
    ensures m.ThreadStep? ==>
            s.threads[m.t].target == d && (s.threads[m.t].pc.Exchange? || s.threads[m.t].pc.ThreadSignal?)
    ensures !m.ThreadStep? ==> m == Step(d) && (s.coroutines[d].stage.Signal? || s.coroutines[d].stage.TaskSignal?)
  {
    if Enabled(s, m) {
      match m
      case Step(c) =>
        StageAlone(s, c);
        StageOwner(s, c);
      case ThreadStep(t) =>
        if s.threads[t].target < |s.coroutines| {
          AccessOwners(s, t);
        }
      case _ =>
    }
  }

  /** A stage changes no other coroutine. */
  lemma StageAlone(s: System, c: nat)
    requires c < |s.coroutines|
    ensures |StageStep(s, c).coroutines| == |s.coroutines|
    ensures StageStep(s, c).coroutines == s.coroutines[c := StageStep(s, c).coroutines[c]]
  {
  }

  /** Only a signal takes the owner out. */
  lemma StageOwner(s: System, c: nat)
    requires c < |s.coroutines| == |StageStep(s, c).coroutines|
    ensures s.coroutines[c].stage.Signal? || s.coroutines[c].stage.TaskSignal?
            || StageStep(s, c).coroutines[c].owner == s.coroutines[c].owner
  {
  }

  lemma StageForward(s: System, c: nat)
    requires c < |s.coroutines| == |StageStep(s, c).coroutines|
    ensures BeforeAssert(StageStep(s, c).coroutines[c].stage) ==> BeforeAssert(s.coroutines[c].stage)
  {
  }

  /** What an access of a thread leaves alone. */
  lemma AccessOwners(s: System, t: nat)
    requires t < |s.threads| && s.threads[t].target < |s.coroutines|
    ensures |Access(s, t).coroutines| == |s.coroutines|
    ensures forall d :: 0 <= d < |s.coroutines| ==>
            Access(s, t).coroutines[d] == s.coroutines[d].(owner := Access(s, t).coroutines[d].owner)
    ensures s.threads[t].pc.Exchange? || s.threads[t].pc.ThreadSignal? || Access(s, t).coroutines == s.coroutines
    ensures forall d :: 0 <= d < |s.coroutines| && d != s.threads[t].target ==>
            Access(s, t).coroutines[d] == s.coroutines[d]
  {
  }

  // ---------------------------------------------------------------------
  // The assertions that can fail
  // ---------------------------------------------------------------------

  const SYNC := Coroutine(Running, None, None, true, false)
  const ASYNC := Coroutine(Running, None, None, false, false)

  lemma Extend(s: System, moves: seq<Move>, m: Move)
    ensures Execute(s, moves + [m]) == Advance(Execute(s, moves), m)
  {
    assert (moves + [m])[..|moves|] == moves;
  }

  const PAIR := System([1, 1], [SYNC, ASYNC], [IDLE], false, 100)

  /** A SyncTask finishes while a running coroutine takes over its handle. */
  function ZeroMove(i: nat): Move {
    if i == 0 then Finish(0)
    else if i == 2 then SetOwner(0, 0, Some(1))
    else if i == 3 || i == 4 then ThreadStep(0)
    else Step(0)
  }

  function ZeroState(i: nat): System {
    System([if i == 5 || i == 6 then 2 else 1, 1],
           [SYNC.(stage := if i < 1 then Running else if i < 2 then FinalTest else if i < 6 then Publish
               else if i < 7 then LastDown
                           else if i < 8 then LookOwner else AssertZero, event := i >= 6), ASYNC],
           [if i < 3 then IDLE
               else Thread(if i == 3 then Look else if i == 4 then Up else TakeCheck, 0, Some(1), None)], false, 100)
  }

  lemma ZeroStep(i: nat)
    requires i < 8
    ensures Next(ZeroState(i), ZeroMove(i)) == ZeroState(i + 1)
  {
  }

  lemma {:induction false} ZeroRun(n: nat) returns (moves: seq<Move>)
    requires n <= 8
    ensures Execute(PAIR, moves).system == ZeroState(n)
  {
    if n == 0 {
      moves := [];
    } else {
      var before := ZeroRun(n - 1);
      ZeroStep(n - 1);
      Extend(PAIR, before, ZeroMove(n - 1));
      moves := before + [ZeroMove(n - 1)];
    }
  }

  /** The final awaiter of a SyncTask asserts a zero count that a concurrent setOwner can have raised. */
  lemma ZeroAssertionCanFail() returns (moves: seq<Move>)
    ensures Initial(PAIR) && Execute(PAIR, moves).system.failed
  {
    var before := ZeroRun(8);
    Extend(PAIR, before, ZeroMove(8));
    moves := before + [ZeroMove(8)];
  }

  const FAMILY := System([1, 1, 1], [SYNC, ASYNC, ASYNC], [IDLE, IDLE], false, 100)

  /**
   Coroutine 1, on thread 0, comes to own the SyncTask 0 (moves 0-7), which, on
   thread 1, comes to own coroutine 2 (8-15). The SyncTask finishes and waits
   (16-19); its child finishes and gives its charge back (20-26); the completion
   task starts (27) and comes to the assertion.
   */
  function OwnerMove(i: nat): Move {
    if i == 0 then SetOwner(0, 0, Some(1))
    else if i < 8 then ThreadStep(0)
    else if i == 8 then SetOwner(1, 2, Some(0))
    else if i < 16 then ThreadStep(1)
    else if i == 16 then Finish(0)
    else if i < 20 then Step(0)
    else if i == 20 then Finish(2)
    else if i < 27 then Step(2)
    else Step(0)
  }

  function CallPc(i: nat): Pc {
    if i < 7 then [Look, Up, TakeCheck, TakeUp, Exchange, ReleaseGuard, ZeroCheck][i] else Idle
  }

  /** The thread after `i` moves of a call. */
  function Calling(i: nat, target: nat, newOwner: nat): Thread {
    if 1 <= i < 8 then Thread(CallPc(i - 1), target, Some(newOwner), None) else IDLE
  }

  function OwnerState(i: nat): System {
    System([1 + One(3 <= i < 7) + One(13 <= i < 27) - One(i >= 20),
            1 + One(i >= 5),
            1 + One(11 <= i < 15) - One(i >= 24)],
           [SYNC.(stage := SyncStage(i), owner := if i >= 6 then Some(1) else None),
            ASYNC,
            ASYNC.(stage := ChildStage(i), owner := if 14 <= i < 25 then Some(0) else None,
                   former := if 25 <= i < 27 then Some(0) else None)],
           [Calling(i, 0, 1), if i >= 8 then Calling(i - 8, 2, 0) else IDLE], false, 100)
  }

  function SyncStage(i: nat): Stage {
    if i < 17 then Running
    else if i < 20 then [FinalTest, Enqueue, OwnDown][i - 17]
    else if i < 28 then Waiting
    else TaskAssert
  }

  function ChildStage(i: nat): Stage {
    if i < 21 then Running
    else if i < 27 then [FinalTest, Publish, LastDown, Signal, SignalCheck, SignalDown][i - 21]
    else Done
  }

  lemma FirstCall(i: nat)
    requires i < 8
    ensures Next(OwnerState(i), OwnerMove(i)) == OwnerState(i + 1)
  {
    if i < 4 {
      FirstCallTakes(i);
    } else {
      FirstCallPublishes(i);
    }
  }

  lemma FirstCallTakes(i: nat)
    requires i < 4
    ensures Next(OwnerState(i), OwnerMove(i)) == OwnerState(i + 1)
  {
  }

  lemma FirstCallPublishes(i: nat)
    requires 4 <= i < 8
    ensures Next(OwnerState(i), OwnerMove(i)) == OwnerState(i + 1)
  {
  }

  lemma SecondCall(i: nat)
    requires 8 <= i < 16
    ensures Next(OwnerState(i), OwnerMove(i)) == OwnerState(i + 1)
  {
  }

  lemma RootWaits(i: nat)
    requires 16 <= i < 20
    ensures Next(OwnerState(i), OwnerMove(i)) == OwnerState(i + 1)
  {
  }

  lemma ChildFinishes(i: nat)
    requires 20 <= i < 28
    ensures Next(OwnerState(i), OwnerMove(i)) == OwnerState(i + 1)
  {
  }

  lemma {:induction false} OwnerRun(n: nat) returns (moves: seq<Move>)
    requires n <= 28
    ensures Execute(FAMILY, moves).system == OwnerState(n)
  {
    if n == 0 {
      moves := [];
    } else {
      var before := OwnerRun(n - 1);
      var i := n - 1;
      if i < 8 {
        FirstCall(i);
      } else if i < 16 {
        SecondCall(i);
      } else if i < 20 {
        RootWaits(i);
      } else {
        ChildFinishes(i);
      }
      Extend(FAMILY, before, OwnerMove(i));
      moves := before + [OwnerMove(i)];
    }
  }

  lemma FamilyStarts()
    ensures Initial(FAMILY) && FAMILY == OwnerState(0)
  {
  }

  lemma OwnerAsserts()
    ensures Next(OwnerState(28), OwnerMove(28)).failed
  {
  }

  /**
   The completion task of a SyncTask asserts that it has no owner; one that a
   coroutine owns, and that had a child, has.
   */
  lemma OwnerAssertionCanFail() returns (moves: seq<Move>)
    ensures Initial(FAMILY) && Execute(FAMILY, moves).system.failed
  {
    FamilyStarts();
    OwnerAsserts();
    var before := OwnerRun(28);
    Extend(FAMILY, before, OwnerMove(28));
    moves := before + [OwnerMove(28)];
  }
}
