/** What setOwner and the end of a coroutine do when nobody else moves, whatever the others are in the middle of. */
module OwnershipAlone {
  import opened Tally
  import opened Undisturbed
  import opened Ownership
  import opened OwnershipProof

  // ---------------------------------------------------------------------
  // A thread inside setOwner
  // ---------------------------------------------------------------------

  function ThreadMover(t: nat): System -> System {
    (s: System) => Next(s, ThreadStep(t))
  }

  /** After `n` accesses of thread `t`, with nobody else moving. */
  function ThreadAlone(s: System, t: nat, n: nat): System {
    After(ThreadMover(t), s, n)
  }

  lemma ThreadMore(s: System, t: nat, a: nat, b: nat)
    ensures ThreadAlone(s, t, a + b) == ThreadAlone(ThreadAlone(s, t, a), t, b)
  {
    AfterMore(ThreadMover(t), s, a, b);
  }

  lemma ThreadFew(s: System, t: nat)
    ensures ThreadAlone(s, t, 0) == s
    ensures ThreadAlone(s, t, 1) == Next(s, ThreadStep(t))
    ensures ThreadAlone(s, t, 2) == Next(Next(s, ThreadStep(t)), ThreadStep(t))
  {
    AfterFew(ThreadMover(t), s);
  }

  lemma Extend(s: System, t: nat, n: nat, s1: System, s2: System)
    requires ThreadAlone(s, t, n) == s1 && Next(s1, ThreadStep(t)) == s2
    ensures ThreadAlone(s, t, n + 1) == s2
  {
    ThreadMore(s, t, n, 1);
    ThreadFew(s1, t);
  }

  /** The counts with one more or one less for `o`, if it is somebody. */
  function Charge(counts: seq<int>, o: Option<nat>, delta: int): seq<int> {
    if o.Some? && o.value < |counts| then counts[o.value := counts[o.value] + delta] else counts
  }

  /** The system while thread `t` changes the owner of `x`. */
  function During(s: System, t: nat, x: nat, counts: seq<int>, owner: Option<nat>, th: Thread): System
    requires t < |s.threads| && x < |s.coroutines|
  {
    s.(counts := counts, coroutines := s.coroutines[x := s.coroutines[x].(owner := owner)],
       threads := s.threads[t := th])
  }

  /** The counts that setOwner meets are off zero and off the maximum, where it matters. */
  predicate Roomy(s: System, t: nat, x: nat, newOwner: Option<nat>) {
    && t < |s.threads| && x < |s.coroutines| == |s.counts| && !s.failed && s.threads[t] == IDLE
    && 0 <= s.counts[x] && s.counts[x] + 2 < s.max
    && (newOwner.Some? ==>
          newOwner.value < |s.counts| && 1 <= s.counts[newOwner.value] && s.counts[newOwner.value] + 2 < s.max)
    && var owner := s.coroutines[x].owner;
       owner.Some? ==> owner.value < |s.counts| && 1 <= s.counts[owner.value]
  }

  lemma RoomFor(s: System, t: nat, c: nat)
    requires Conserved(s) && HasRoom(s) && t < |s.threads| && s.threads[t] == IDLE && c < |s.coroutines|
    ensures 0 <= s.counts[c] && s.counts[c] + 2 < s.max
  {
    assert s.counts[c] == Balance(s, c);
    ChargesNonNegative(s, c);
    TotalShort(s.threads, Guards(c), t);
    TotalShort(s.threads, ThreadCharges(c), t);
    TotalBound(s.coroutines, OwnedCharges(c), 0, 2);
  }

  lemma RoomyIn(s: System, v: View, t: nat, x: nat, newOwner: Option<nat>)
    requires Inv(s, v) && Enabled(s, SetOwner(t, x, newOwner))
    ensures Roomy(s, t, x, newOwner)
  {
    RoomFor(s, t, x);
    if newOwner.Some? {
      RoomFor(s, t, newOwner.value);
      TokenCounts(s, newOwner.value);
    }
    assert CoroutineFits(s, v, x);
    if s.coroutines[x].owner.Some? {
      OwnChargeCounts(s, x, s.coroutines[x].owner.value);
    }
  }

  /** The charge of `x` has moved from its owner to the new one. */
  function Moved(s: System, x: nat, newOwner: Option<nat>): System
    requires x < |s.coroutines|
  {
    s.(counts := Charge(Charge(s.counts, newOwner, 1), s.coroutines[x].owner, -1),
       coroutines := s.coroutines[x := s.coroutines[x].(owner := newOwner)])
  }

  /** The owner of `x` has its charge back. */
  function Signalled(s: System, x: nat): System
    requires x < |s.coroutines|
  {
    s.(counts := Charge(s.counts, s.coroutines[x].owner, -1),
       coroutines := s.coroutines[x := s.coroutines[x].(owner := None)])
  }

  /** The guard, and the charge to a new owner. */
  lemma TakesNew(s: System, t: nat, x: nat, newOwner: Option<nat>)
    requires Roomy(s, t, x, newOwner) && s.counts[x] != 0 && newOwner.Some?
    ensures var th := Thread(Look, x, newOwner, None);
            ThreadAlone(s.(threads := s.threads[t := th]), t, 4) ==
              During(s, t, x, Charge(Charge(s.counts, Some(x), 1), newOwner, 1), s.coroutines[x].owner,
                     th.(pc := Exchange))
  {
    var th, owner := Thread(Look, x, newOwner, None), s.coroutines[x].owner;
    var s0 := s.(threads := s.threads[t := th]);
    var guarded := Charge(s.counts, Some(x), 1);
    var s1 := During(s, t, x, s.counts, owner, th.(pc := Up));
    var s2 := During(s, t, x, guarded, owner, th.(pc := TakeCheck));
    var s3 := During(s, t, x, guarded, owner, th.(pc := TakeUp));
    Extend(s0, t, 0, s0, s1);
    Extend(s0, t, 1, s1, s2);
    Extend(s0, t, 2, s2, s3);
    Extend(s0, t, 3, s3, During(s, t, x, Charge(guarded, newOwner, 1), owner, th.(pc := Exchange)));
  }

  /** The guard, when the owner is only cleared. */
  lemma TakesNone(s: System, t: nat, x: nat)
    requires Roomy(s, t, x, None) && s.counts[x] != 0
    ensures var th := Thread(Look, x, None, None);
            ThreadAlone(s.(threads := s.threads[t := th]), t, 2) ==
              During(s, t, x, Charge(s.counts, Some(x), 1), s.coroutines[x].owner, th.(pc := Exchange))
  {
    var th, owner := Thread(Look, x, None, None), s.coroutines[x].owner;
    var s0 := s.(threads := s.threads[t := th]);
    var s1 := During(s, t, x, s.counts, owner, th.(pc := Up));
    Extend(s0, t, 0, s0, s1);
    Extend(s0, t, 1, s1, During(s, t, x, Charge(s.counts, Some(x), 1), owner, th.(pc := Exchange)));
  }

  /** The exchange, and the charge given back to the old owner. */
  lemma Exchanges(s: System, t: nat, x: nat, counts: seq<int>, newOwner: Option<nat>) returns (n: nat)
    requires t < |s.threads| && x < |s.coroutines| == |counts| && !s.failed
    requires var owner := s.coroutines[x].owner; owner.Some? ==> owner.value < |counts| && counts[owner.value] != 0
    ensures var th := Thread(Exchange, x, newOwner, None);
            ThreadAlone(During(s, t, x, counts, s.coroutines[x].owner, th), t, n) ==
              During(s, t, x, Charge(counts, s.coroutines[x].owner, -1), newOwner, th.(pc := ReleaseGuard))
  {
    var th, owner := Thread(Exchange, x, newOwner, None), s.coroutines[x].owner;
    var s0 := During(s, t, x, counts, owner, th);
    if owner.None? {
      Extend(s0, t, 0, s0, During(s, t, x, counts, newOwner, th.(pc := ReleaseGuard)));
      n := 1;
    } else {
      var s1 := During(s, t, x, counts, newOwner, th.(pc := GiveOld, former := owner));
      Extend(s0, t, 0, s0, s1);
      Extend(s0, t, 1, s1, During(s, t, x, Charge(counts, owner, -1), newOwner, th.(pc := ReleaseGuard)));
      n := 2;
    }
  }

  /** The guard is released; a count of zero means that the coroutine has completed meanwhile. */
  lemma Releases(s: System, t: nat, x: nat, counts: seq<int>, newOwner: Option<nat>) returns (n: nat)
    requires t < |s.threads| && x < |s.coroutines| == |counts| && !s.failed && counts[x] != 0
    requires newOwner.Some? ==> newOwner.value < |counts|
    requires newOwner.Some? && counts[x] == 1 ==> newOwner != Some(x) && counts[newOwner.value] != 0
    ensures var th := Thread(ReleaseGuard, x, newOwner, None);
            var s' := During(s, t, x, Charge(counts, Some(x), -1), newOwner, IDLE);
            ThreadAlone(During(s, t, x, counts, newOwner, th), t, n) == if counts[x] == 1 then Signalled(s', x) else s'
  {
    var th := Thread(ReleaseGuard, x, newOwner, None);
    var less := Charge(counts, Some(x), -1);
    var s0, s1 := During(s, t, x, counts, newOwner, th), During(s, t, x, less, newOwner, th.(pc := ZeroCheck));
    Extend(s0, t, 0, s0, s1);
    if counts[x] != 1 {
      Extend(s0, t, 1, s1, During(s, t, x, less, newOwner, IDLE));
      n := 2;
    } else {
      var s2 := During(s, t, x, less, newOwner, th.(pc := ThreadSignal));
      Extend(s0, t, 1, s1, s2);
      n := SignalsOwner(s, t, x, less, newOwner, newOwner);
      ThreadMore(s0, t, 2, n);
      n := n + 2;
    }
  }

  /** signalOwner by a thread: the owner is taken and gets its charge back. */
  lemma SignalsOwner(s: System, t: nat, x: nat, counts: seq<int>, owner: Option<nat>, newOwner: Option<nat>)
    returns (n: nat)
    requires t < |s.threads| && x < |s.coroutines| == |counts| && !s.failed
    requires owner.Some? ==> owner.value < |counts| && counts[owner.value] != 0
    ensures ThreadAlone(During(s, t, x, counts, owner, Thread(ThreadSignal, x, newOwner, None)), t, n) ==
              Signalled(During(s, t, x, counts, owner, IDLE), x)
  {
    var th := Thread(ThreadSignal, x, newOwner, None);
    var s0 := During(s, t, x, counts, owner, th);
    if owner.None? {
      Extend(s0, t, 0, s0, During(s, t, x, counts, None, IDLE));
      n := 1;
    } else {
      var s1 := During(s, t, x, counts, None, th.(pc := ThreadCheck, former := owner));
      var s2 := During(s, t, x, counts, None, th.(pc := ThreadDown, former := owner));
      Extend(s0, t, 0, s0, s1);
      Extend(s0, t, 1, s1, s2);
      Extend(s0, t, 2, s2, During(s, t, x, Charge(counts, owner, -1), None, IDLE));
      n := 3;
    }
  }

  /**
   The owner of `x` after setOwner; a completed coroutine is left alone, and one
   that completes by it leaves its owner.
   */
  function SetOwnerOutcome(s: System, x: nat, newOwner: Option<nat>): System
    requires x < |s.coroutines|
  {
    if Count(s, x) == 0 then s
    else
      var moved := Moved(s, x, newOwner);
      if Count(moved, x) == 0 then Signalled(moved, x) else moved
  }

  lemma Guarded(counts: seq<int>, x: nat, newOwner: Option<nat>, owner: Option<nat>)
    requires x < |counts|
    requires newOwner.Some? ==> newOwner.value < |counts|
    requires owner.Some? ==> owner.value < |counts|
    ensures Charge(Charge(Charge(Charge(counts, Some(x), 1), newOwner, 1), owner, -1), Some(x), -1)
         == Charge(Charge(counts, newOwner, 1), owner, -1)
  {
  }

  lemma Chain(s: System, t: nat, a: nat, s1: System, b: nat, s2: System)
    requires ThreadAlone(s, t, a) == s1 && ThreadAlone(s1, t, b) == s2
    ensures ThreadAlone(s, t, a + b) == s2
  {
    ThreadMore(s, t, a, b);
  }

  lemma ComesToRelease(s: System, t: nat, x: nat, newOwner: Option<nat>) returns (n: nat)
    requires Roomy(s, t, x, newOwner) && s.counts[x] != 0
    ensures var th, owner := Thread(Look, x, newOwner, None), s.coroutines[x].owner;
            ThreadAlone(s.(threads := s.threads[t := th]), t, n) ==
              During(s, t, x, Charge(Charge(Charge(s.counts, Some(x), 1), newOwner, 1), owner, -1), newOwner,
                     th.(pc := ReleaseGuard))
  {
    var th, owner := Thread(Exchange, x, newOwner, None), s.coroutines[x].owner;
    var taken := Charge(Charge(s.counts, Some(x), 1), newOwner, 1);
    if newOwner.Some? {
      n := 4;
      TakesNew(s, t, x, newOwner);
    } else {
      n := 2;
      TakesNone(s, t, x);
    }
    var m := Exchanges(s, t, x, taken, newOwner);
    Chain(s.(threads := s.threads[t := th.(pc := Look)]), t, n, During(s, t, x, taken, owner, th), m,
          During(s, t, x, Charge(taken, owner, -1), newOwner, th.(pc := ReleaseGuard)));
    n := n + m;
  }

  lemma MovesAlone(s: System, t: nat, x: nat, newOwner: Option<nat>) returns (n: nat)
    requires Roomy(s, t, x, newOwner) && s.counts[x] != 0
    ensures ThreadAlone(s.(threads := s.threads[t := Thread(Look, x, newOwner, None)]), t, n)
         == SetOwnerOutcome(s, x, newOwner)
  {
    var th, owner := Thread(ReleaseGuard, x, newOwner, None), s.coroutines[x].owner;
    var given := Charge(Charge(Charge(s.counts, Some(x), 1), newOwner, 1), owner, -1);
    n := ComesToRelease(s, t, x, newOwner);
    var k := Releases(s, t, x, given, newOwner);
    Guarded(s.counts, x, newOwner, owner);
    assert During(s, t, x, Charge(given, Some(x), -1), newOwner, IDLE) == Moved(s, x, newOwner);
    Chain(s.(threads := s.threads[t := th.(pc := Look)]), t, n, During(s, t, x, given, newOwner, th), k,
          SetOwnerOutcome(s, x, newOwner));
    n := n + k;
  }

  /**
   setOwner, alone: one charge moves from the old owner to the new one; a
   coroutine that has completed is left alone.
   */
  lemma SetOwnerAlone(s: System, v: View, t: nat, x: nat, newOwner: Option<nat>) returns (n: nat)
    requires Inv(s, v) && Enabled(s, SetOwner(t, x, newOwner))
    ensures ThreadAlone(Next(s, SetOwner(t, x, newOwner)), t, n) == SetOwnerOutcome(s, x, newOwner)
  {
    RoomyIn(s, v, t, x, newOwner);
    var s0 := Next(s, SetOwner(t, x, newOwner));
    if s.counts[x] == 0 {
      n := 1;
      assert s0.threads[t := IDLE] == s.threads;
      assert s.coroutines[x := s.coroutines[x]] == s.coroutines;
      Extend(s0, t, 0, s0, s);
    } else {
      n := MovesAlone(s, t, x, newOwner);
    }
  }

  // ---------------------------------------------------------------------
  // The end of a coroutine
  // ---------------------------------------------------------------------

  function StageMover(c: nat): System -> System {
    (s: System) => Next(s, Step(c))
  }

  /** After `n` steps of coroutine `c` and its completion task, with nobody else moving. */
  function StagesAlone(s: System, c: nat, n: nat): System {
    After(StageMover(c), s, n)
  }

  lemma StagesMore(s: System, c: nat, a: nat, b: nat)
    ensures StagesAlone(s, c, a + b) == StagesAlone(StagesAlone(s, c, a), c, b)
  {
    AfterMore(StageMover(c), s, a, b);
  }

  lemma Onward(s: System, c: nat, n: nat, s1: System, s2: System)
    requires StagesAlone(s, c, n) == s1 && Next(s1, Step(c)) == s2
    ensures StagesAlone(s, c, n + 1) == s2
  {
    StagesMore(s, c, n, 1);
    AfterFew(StageMover(c), s1);
  }

  /** The system with `c` as it is and other counts. */
  function Ending(s: System, c: nat, counts: seq<int>, co: Coroutine): System
    requires c < |s.coroutines|
  {
    s.(counts := counts, coroutines := s.coroutines[c := co])
  }

  /** The coroutine is through, and its owner has its charge back. */
  function Ended(s: System, c: nat): System
    requires c < |s.coroutines|
  {
    var co := s.coroutines[c];
    Ending(s, c, Charge(s.counts, co.owner, -1), co.(stage := Done, owner := None, former := None))
  }

  /** From the exchange of the owner on. */
  lemma Signals(s: System, c: nat) returns (n: nat)
    requires c < |s.coroutines| == |s.counts| && !s.failed && s.coroutines[c].former == None
    requires var owner := s.coroutines[c].owner; owner.Some? ==> owner.value < |s.counts| && s.counts[owner.value] != 0
    requires s.coroutines[c].stage.TaskSignal? || (s.coroutines[c].stage.Signal? && !s.coroutines[c].sync)
    ensures StagesAlone(s, c, n) == Ended(s, c)
  {
    if s.coroutines[c].owner.None? {
      n := 1;
      Onward(s, c, 0, s, Ended(s, c));
    } else {
      n := 3;
      if s.coroutines[c].stage.TaskSignal? {
        TaskGivesBack(s, c);
      } else {
        GivesBack(s, c);
      }
    }
  }

  lemma TaskGivesBack(s: System, c: nat)
    requires c < |s.coroutines| == |s.counts| && !s.failed && s.coroutines[c].owner.Some?
    requires var owner := s.coroutines[c].owner; owner.value < |s.counts| && s.counts[owner.value] != 0
    requires s.coroutines[c].stage.TaskSignal?
    ensures StagesAlone(s, c, 3) == Ended(s, c)
  {
    var taken := s.coroutines[c].(owner := None, former := s.coroutines[c].owner);
    var s1, s2 := Ending(s, c, s.counts, taken.(stage := TaskCheck)), Ending(s, c, s.counts, taken.(stage := TaskDown));
    Onward(s, c, 0, s, s1);
    Onward(s, c, 1, s1, s2);
    Onward(s, c, 2, s2, Ended(s, c));
  }

  lemma GivesBack(s: System, c: nat)
    requires c < |s.coroutines| == |s.counts| && !s.failed && s.coroutines[c].owner.Some?
    requires var owner := s.coroutines[c].owner; owner.value < |s.counts| && s.counts[owner.value] != 0
    requires s.coroutines[c].stage.Signal? && !s.coroutines[c].sync
    ensures StagesAlone(s, c, 3) == Ended(s, c)
  {
    var taken := s.coroutines[c].(owner := None, former := s.coroutines[c].owner);
    var s1 := Ending(s, c, s.counts, taken.(stage := SignalCheck));
    var s2 := Ending(s, c, s.counts, taken.(stage := SignalDown));
    Onward(s, c, 0, s, s1);
    Onward(s, c, 1, s1, s2);
    Onward(s, c, 2, s2, Ended(s, c));
  }

  /** A SyncTask that has no children looks at its owner first, and asserts that its count is zero at the end. */
  lemma SignalsSync(s: System, c: nat) returns (n: nat)
    requires c < |s.coroutines| == |s.counts| && !s.failed && s.coroutines[c].former == None
    requires var owner := s.coroutines[c].owner; owner.Some? ==> owner.value < |s.counts| && s.counts[owner.value] != 0
    requires s.coroutines[c].stage.LookOwner? && s.coroutines[c].sync && s.counts[c] == 0
    ensures StagesAlone(s, c, n) == Ended(s, c)
  {
    var co := s.coroutines[c];
    if co.owner.None? {
      var s1 := Ending(s, c, s.counts, co.(stage := AssertZero));
      Onward(s, c, 0, s, s1);
      Onward(s, c, 1, s1, Ended(s, c));
      n := 2;
    } else {
      SignalsSyncOwner(s, c);
      n := 5;
    }
  }

  lemma SignalsSyncOwner(s: System, c: nat)
    requires c < |s.coroutines| == |s.counts| && !s.failed && s.coroutines[c].owner.Some?
    requires var owner := s.coroutines[c].owner; owner.value < |s.counts| && s.counts[owner.value] != 0
    requires s.coroutines[c].stage.LookOwner? && s.coroutines[c].sync && s.counts[c] == 0
    ensures StagesAlone(s, c, 5) == Ended(s, c)
  {
    var co := s.coroutines[c];
    var taken := co.(owner := None, former := co.owner);
    var s1 := Ending(s, c, s.counts, co.(stage := Signal));
    var s2 := Ending(s, c, s.counts, taken.(stage := SignalCheck));
    var s3 := Ending(s, c, s.counts, taken.(stage := SignalDown));
    var s4 := Ending(s, c, Charge(s.counts, co.owner, -1), taken.(stage := AssertZero, former := None));
    Onward(s, c, 0, s, s1);
    Onward(s, c, 1, s1, s2);
    Onward(s, c, 2, s2, s3);
    Onward(s, c, 3, s3, s4);
    Onward(s, c, 4, s4, Ended(s, c));
  }

  /** The coroutine has completed: its own token is down, and the waiter of a SyncTask is signalled. */
  function Completed(s: System, c: nat): System
    requires c < |s.coroutines|
  {
    var co := s.coroutines[c];
    Ending(s, c, Charge(s.counts, Some(c), -1), co.(event := co.sync, stage := if co.sync then LookOwner else Signal))
  }

  /** The final awaiter of a coroutine without children. */
  lemma Completes(s: System, c: nat) returns (n: nat)
    requires c < |s.coroutines| == |s.counts| && !s.failed && s.coroutines[c].former == None
    requires s.coroutines[c].stage.FinalTest? && s.counts[c] == 1 && s.coroutines[c].owner != Some(c)
    requires var owner := s.coroutines[c].owner; owner.Some? ==> owner.value < |s.counts| && s.counts[owner.value] != 0
    ensures StagesAlone(s, c, n) == Ended(Completed(s, c), c)
  {
    CompletesItself(s, c);
    var s3 := Completed(s, c);
    if s.coroutines[c].sync {
      n := SignalsSync(s3, c);
    } else {
      n := Signals(s3, c);
    }
    StagesMore(s, c, 3, n);
    n := n + 3;
  }

  lemma CompletesItself(s: System, c: nat)
    requires c < |s.coroutines| == |s.counts| && !s.failed
    requires s.coroutines[c].stage.FinalTest? && s.counts[c] == 1
    ensures StagesAlone(s, c, 3) == Completed(s, c)
  {
    var co := s.coroutines[c];
    var s1 := Ending(s, c, s.counts, co.(stage := Publish));
    var s2 := Ending(s, c, s.counts, co.(stage := LastDown, event := co.sync));
    Onward(s, c, 0, s, s1);
    Onward(s, c, 1, s1, s2);
    Onward(s, c, 2, s2, Completed(s, c));
  }

  /** The final awaiter of a coroutine with children leaves the rest to its completion task. */
  lemma LeavesToTask(s: System, c: nat)
    requires c < |s.coroutines| == |s.counts| && !s.failed
    requires s.coroutines[c].stage.FinalTest? && s.counts[c] > 1
    ensures StagesAlone(s, c, 3)
         == Ending(s, c, Charge(s.counts, Some(c), -1), s.coroutines[c].(stage := Waiting))
  {
    var co := s.coroutines[c];
    var s1, s2 := Ending(s, c, s.counts, co.(stage := Enqueue)), Ending(s, c, s.counts, co.(stage := OwnDown));
    Onward(s, c, 0, s, s1);
    Onward(s, c, 1, s1, s2);
    Onward(s, c, 2, s2, Ending(s, c, Charge(s.counts, Some(c), -1), co.(stage := Waiting)));
  }

  /** What the end of a coroutine that just finished makes of the system. */
  function FinishOutcome(s: System, c: nat): System
    requires c < |s.coroutines|
  {
    if Count(s, c) == 1 then Ended(Completed(s, c), c)
    else Ending(s, c, Charge(s.counts, Some(c), -1), s.coroutines[c].(stage := Waiting))
  }

  lemma OwnerCounts(s: System, v: View, c: nat)
    requires Inv(s, v) && c < |s.coroutines| && s.coroutines[c].owner.Some?
    ensures s.coroutines[c].owner.value < |s.counts| && s.counts[s.coroutines[c].owner.value] >= 1
  {
    assert CoroutineFits(s, v, c);
    OwnChargeCounts(s, c, s.coroutines[c].owner.value);
  }

  lemma NotOwnOwner(s: System, c: nat)
    requires Conserved(s) && c < |s.coroutines| && Token(s.coroutines[c]) && Count(s, c) == 1
    ensures s.coroutines[c].owner != Some(c)
  {
    TokenCounts(s, c);
    TotalNonNegative(s.threads, ThreadCharges(c));
    TotalDominates(s.coroutines, OwnedCharges(c), c);
  }

  /**
   A coroutine that finishes, alone: without children it gives its charge back
   to its owner and is done, and the waiter of a SyncTask is signalled; with
   children it gives up its own token and its completion task waits.
   */
  lemma FinishAlone(s: System, v: View, c: nat) returns (n: nat)
    requires Inv(s, v) && Enabled(s, Finish(c))
    ensures StagesAlone(Next(s, Finish(c)), c, n) == FinishOutcome(s, c)
  {
    var s0 := Next(s, Finish(c));
    assert CoroutineFits(s, v, c);
    TokenCounts(s, c);
    if s.coroutines[c].owner.Some? {
      OwnerCounts(s, v, c);
    }
    if s.counts[c] == 1 {
      NotOwnOwner(s, c);
      n := Completes(s0, c);
      assert Completed(s0, c) == Completed(s, c);
    } else {
      n := 3;
      LeavesToTask(s0, c);
    }
  }

  /** The stages of a completion task whose count has come to zero. */
  lemma TaskRuns(s: System, c: nat) returns (n: nat)
    requires c < |s.coroutines| == |s.counts| && !s.failed && s.coroutines[c].former == None
    requires s.coroutines[c].stage.Waiting? && s.counts[c] == 0
    requires var owner := s.coroutines[c].owner; owner.Some? ==> owner.value < |s.counts| && s.counts[owner.value] != 0
    requires !s.coroutines[c].sync
    ensures StagesAlone(s, c, n) == Ended(s, c)
  {
    var s1 := Ending(s, c, s.counts, s.coroutines[c].(stage := TaskSignal));
    Onward(s, c, 0, s, s1);
    n := Signals(s1, c);
    StagesMore(s, c, 1, n);
    n := n + 1;
  }

  lemma TaskRunsSync(s: System, c: nat)
    requires c < |s.coroutines| == |s.counts| && !s.failed && s.coroutines[c].former == None
    requires s.coroutines[c].stage.Waiting? && s.counts[c] == 0 && s.coroutines[c].sync && s.coroutines[c].owner == None
    ensures StagesAlone(s, c, 4) == Ending(s, c, s.counts, s.coroutines[c].(stage := Done, event := true))
  {
    var co := s.coroutines[c];
    var s1, s2 := Ending(s, c, s.counts, co.(stage := TaskAssert)), Ending(s, c, s.counts, co.(stage := TaskEvent));
    var s3 := Ending(s, c, s.counts, co.(stage := TaskSignal, event := true));
    Onward(s, c, 0, s, s1);
    Onward(s, c, 1, s1, s2);
    Onward(s, c, 2, s2, s3);
    Onward(s, c, 3, s3, Ending(s, c, s.counts, co.(stage := Done, event := true)));
  }

  /**
   A completion task whose count has come to zero, alone: the owner gets its
   charge back; the waiter of a SyncTask, which must have no owner, is signalled.
   */
  lemma TaskAlone(s: System, v: View, c: nat) returns (n: nat)
    requires Inv(s, v) && !s.failed && c < |s.coroutines| && s.coroutines[c].stage.Waiting? && Count(s, c) == 0
    requires s.coroutines[c].sync ==> s.coroutines[c].owner == None
    ensures StagesAlone(s, c, n) ==
              if s.coroutines[c].sync then Ending(s, c, s.counts, s.coroutines[c].(stage := Done, event := true))
              else Ended(s, c)
  {
    assert CoroutineFits(s, v, c);
    if s.coroutines[c].owner.Some? {
      OwnerCounts(s, v, c);
    }
    if s.coroutines[c].sync {
      TaskRunsSync(s, c);
      n := 4;
    } else {
      n := TaskRuns(s, c);
    }
  }

  // ---------------------------------------------------------------------
  // From wherever the thread is
  // ---------------------------------------------------------------------

  function Left(pc: Pc): nat {
    match pc
    case Idle => 0
    case Look => 12
    case Up => 11
    case UndoUp => 4
    case TakeCheck => 10
    case TakeUp => 9
    case Exchange => 8
    case GiveOld => 7
    case ReleaseGuard => 6
    case ZeroCheck => 5
    case ThreadSignal => 3
    case ThreadCheck => 2
    case ThreadDown => 1
  }

  /** Wherever a thread is inside setOwner, it returns from there if it moves alone, and no assertion fails. */
  lemma {:induction false} ReturnsAlone(s: System, v: View, t: nat) returns (n: nat)
    requires Inv(s, v) && !s.failed && t < |s.threads|
    ensures |ThreadAlone(s, t, n).threads| == |s.threads| && ThreadAlone(s, t, n).threads[t] == IDLE
    ensures !ThreadAlone(s, t, n).failed
    decreases Left(s.threads[t].pc)
  {
    assert ThreadFits(s, s.threads[t]);
    if s.threads[t].pc.Idle? {
      n := 0;
    } else {
      var s1 := Next(s, ThreadStep(t));
      Preserved(s, v, ThreadStep(t));
      Nearer(s, t);
      n := ReturnsAlone(s1, Track(s, v, ThreadStep(t)), t);
      ThreadMore(s, t, 1, n);
      ThreadFew(s, t);
      n := n + 1;
    }
  }

  lemma Nearer(s: System, t: nat)
    requires Enabled(s, ThreadStep(t)) && s.threads[t].target < |s.coroutines| && !Next(s, ThreadStep(t)).failed
    ensures var s1 := Next(s, ThreadStep(t));
            |s1.threads| == |s.threads| && Left(s1.threads[t].pc) < Left(s.threads[t].pc)
  {
    if ThreadNext(s, t).Some? {
      AccessParts(s, t);
    }
  }
}
