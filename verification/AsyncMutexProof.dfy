/** Every access of every thread keeps the mutex invariant. */
module AsyncMutexProof {
  import opened Tally
  import opened AsyncMutex

  // ---------------------------------------------------------------------
  // Who holds what
  // ---------------------------------------------------------------------

  /** A coroutine in a hand is asking, is not in the wait list, and is in no other hand. */
  lemma InHand(m: Mutex, t: nat, x: nat)
    requires Located(m) && PhaseOf(m, NULL).Out? && t < |m.threads| && x in Hand(m.threads[t])
    ensures PhaseOf(m, x).Asking? && x != NULL && x !in m.wait
    ensures !(m.threads[t].hand == x == m.threads[t].removed)
    ensures forall u :: 0 <= u < |m.threads| && u != t ==> m.threads[u].hand != x && m.threads[u].removed != x
  {
    GatherContains(m.threads, Hand, t);
    assert Copies(m, x) == 1;
    assert x !in multiset(m.wait);
    forall u | 0 <= u < |m.threads| && u != t
      ensures x !in Hand(m.threads[u])
    {
      if u < t { GatherPair(m.threads, Hand, u, t); } else { GatherPair(m.threads, Hand, t, u); }
    }
    forall u | 0 <= u < |m.threads| && u != t
      ensures m.threads[u].hand != x && m.threads[u].removed != x
    {
      assert x !in Hand(m.threads[u]);
    }
  }

  /** A coroutine is run by one thread. */
  lemma OneRunner(m: Mutex, t: nat, u: nat)
    requires RunOnce(m) && t < |m.threads| && u < |m.threads| && u != t && m.threads[u].self != NULL
    ensures m.threads[u].self != m.threads[t].self
    ensures Inside(PhaseOf(m, m.threads[u].self))
  {
    var c := m.threads[u].self;
    GatherContains(m.threads, Runs, u);
    assert Runs(m.threads[u])[c] == 1;
    assert Runners(m, c) == 1;
    if u < t { GatherPair(m.threads, Runs, u, t); } else { GatherPair(m.threads, Runs, t, u); }
  }

  // ---------------------------------------------------------------------
  // Frames
  // ---------------------------------------------------------------------

  ghost predicate Moved(m: Mutex, m': Mutex, t: nat, th: Thread) {
    t < |m.threads| && m'.threads == m.threads[t := th]
  }

  lemma CopiesMove(m: Mutex, m': Mutex, t: nat, th: Thread, c: nat)
    requires Moved(m, m', t, th)
    ensures Copies(m', c) - multiset(m'.wait)[c] - Hand(th)[c] ==
            Copies(m, c) - multiset(m.wait)[c] - Hand(m.threads[t])[c]
  {
    GatherUpdate(m.threads, Hand, t, th);
    assert Hand(m.threads[t])[c] <= Gather(m.threads, Hand)[c];
  }

  lemma RunnersMove(m: Mutex, m': Mutex, t: nat, th: Thread, c: nat)
    requires Moved(m, m', t, th)
    ensures Runners(m', c) - Runs(th)[c] == Runners(m, c) - Runs(m.threads[t])[c]
  {
    GatherUpdate(m.threads, Runs, t, th);
    assert Runs(m.threads[t])[c] <= Gather(m.threads, Runs)[c];
  }

  lemma LocatedFrame(m: Mutex, m': Mutex, t: nat, th: Thread)
    requires Located(m) && Moved(m, m', t, th)
    requires forall c: nat ::
               multiset(m'.wait)[c] + Hand(th)[c] - One(PhaseOf(m', c).Asking?) ==
               multiset(m.wait)[c] + Hand(m.threads[t])[c] - One(PhaseOf(m, c).Asking?)
    ensures Located(m')
  {
    forall c: nat
      ensures Copies(m', c) == One(PhaseOf(m', c).Asking?)
    {
      CopiesMove(m, m', t, th, c);
      assert Copies(m, c) == One(PhaseOf(m, c).Asking?);
    }
  }

  lemma RunOnceFrame(m: Mutex, m': Mutex, t: nat, th: Thread)
    requires RunOnce(m) && Moved(m, m', t, th) && PhaseOf(m', NULL).Out?
    requires forall c: nat ::
               Runs(th)[c] - One(Inside(PhaseOf(m', c))) == Runs(m.threads[t])[c] - One(Inside(PhaseOf(m, c)))
    ensures RunOnce(m')
  {
    forall c: nat
      ensures Runners(m', c) == One(Inside(PhaseOf(m', c)))
    {
      RunnersMove(m, m', t, th, c);
      assert Runners(m, c) == One(Inside(PhaseOf(m, c)));
    }
  }

  lemma LocatedKeep(m: Mutex, m': Mutex, t: nat, th: Thread)
    requires Located(m) && Moved(m, m', t, th) && m'.wait == m.wait
    requires th.hand == m.threads[t].hand && th.removed == m.threads[t].removed
    requires forall c: nat :: PhaseOf(m', c).Asking? == PhaseOf(m, c).Asking?
    ensures Located(m')
  {
    LocatedFrame(m, m', t, th);
  }

  lemma RunKeep(m: Mutex, m': Mutex, t: nat, th: Thread)
    requires RunOnce(m) && Moved(m, m', t, th) && th.self == m.threads[t].self && PhaseOf(m', NULL).Out?
    requires forall c: nat :: Inside(PhaseOf(m', c)) == Inside(PhaseOf(m, c))
    ensures RunOnce(m')
  {
    RunOnceFrame(m, m', t, th);
  }

  lemma RunChange(m: Mutex, m': Mutex, t: nat, th: Thread, c: nat)
    requires RunOnce(m) && Moved(m, m', t, th) && c != NULL
    requires forall x: nat :: x != c ==> PhaseOf(m', x) == PhaseOf(m, x)
    requires m.threads[t].self == if Inside(PhaseOf(m, c)) then c else NULL
    requires th.self == if Inside(PhaseOf(m', c)) then c else NULL
    ensures RunOnce(m')
  {
    RunOnceFrame(m, m', t, th);
  }

  /** The others keep their knowledge while the owner stays and nobody's running coroutine changes its phase. */
  lemma KnowsFrame(m: Mutex, m': Mutex, t: nat, th: Thread, c: nat)
    requires AllKnow(m) && RunOnce(m) && Moved(m, m', t, th) && ThreadKnows(m', th)
    requires m.doomed <= m'.doomed && m'.owner == m.owner
    requires forall x: nat :: x != c ==> PhaseOf(m', x) == PhaseOf(m, x)
    requires c == NULL || m.threads[t].self == c || !Inside(PhaseOf(m, c))
    ensures AllKnow(m')
  {
    forall u | 0 <= u < |m'.threads| && u != t
      ensures ThreadKnows(m', m'.threads[u])
    {
      assert m'.threads[u] == m.threads[u] && ThreadKnows(m, m.threads[u]);
      if m.threads[u].self != NULL {
        OneRunner(m, t, u);
      }
    }
  }

  lemma StillRepairing(m: Mutex, m': Mutex, t: nat, th: Thread)
    requires Moved(m, m', t, th) && Repairing(m.threads)
    requires Repairs(m.threads[t].pc) ==> Repairs(th.pc)
    ensures Repairing(m'.threads)
  {
    var u :| 0 <= u < |m.threads| && Repairs(m.threads[u].pc);
    assert Repairs(m'.threads[u].pc);
  }

  /** Whoever stops looking leaves an owner or an empty list behind. */
  lemma NotStrandedFrame(m: Mutex, m': Mutex, t: nat, th: Thread)
    requires NotStranded(m) && Moved(m, m', t, th)
    requires m'.owner == NULL && m'.wait != [] ==>
               Repairs(th.pc) || (m.owner == NULL && m.wait != [] && !Repairs(m.threads[t].pc))
    ensures NotStranded(m')
  {
    if m'.owner == NULL && m'.wait != [] {
      if Repairs(th.pc) {
        assert Repairs(m'.threads[t].pc);
      } else {
        StillRepairing(m, m', t, th);
      }
    }
  }

  lemma StillScheduling(m: Mutex, m': Mutex, t: nat, th: Thread, x: nat)
    requires Moved(m, m', t, th) && Scheduling(m.threads, x)
    requires !(m.threads[t].pc.LockSchedule? && m.threads[t].hand == x)
    ensures Scheduling(m'.threads, x)
  {
    var u :| 0 <= u < |m.threads| && m.threads[u].pc.LockSchedule? && m.threads[u].hand == x;
    assert m'.threads[u].pc.LockSchedule? && m'.threads[u].hand == x;
  }

  /** Only coroutine `c` changes its phase, and the owner stays. */
  lemma OwnershipFrame(m: Mutex, m': Mutex, t: nat, th: Thread, c: nat)
    requires Ownership(m) && Moved(m, m', t, th) && m'.owner == m.owner && m.doomed <= m'.doomed
    requires (m.cancelled ==> m'.cancelled)
    requires forall x: nat :: x != c ==> PhaseOf(m', x) == PhaseOf(m, x)
    requires m.threads[t].pc.LockSchedule? ==> m.threads[t].hand == c
    requires c != NULL ==> Fits(m', c)
    ensures Ownership(m')
  {
    forall x: nat | x != NULL && x != c
      ensures Fits(m', x)
    {
      assert Fits(m, x);
      if PhaseOf(m, x).Asking? && m.owner == x {
        StillScheduling(m, m', t, th, x);
      }
    }
  }

  // ---------------------------------------------------------------------
  // Classes of accesses that leave the owner alone
  // ---------------------------------------------------------------------

  /** An access that only reads, or only sets a cancellation flag. */
  lemma Look(m: Mutex, m': Mutex, t: nat, th: Thread)
    requires Inv(m) && Moved(m, m', t, th) && ThreadKnows(m', th)
    requires m'.owner == m.owner && m'.wait == m.wait && m'.phases == m.phases && m.doomed <= m'.doomed
    requires (m.cancelled ==> m'.cancelled)
    requires th.hand == m.threads[t].hand && th.removed == m.threads[t].removed && th.self == m.threads[t].self
    requires !m.threads[t].pc.LockSchedule?
    requires m.owner == NULL && m.wait != [] ==> Repairs(th.pc) || !Repairs(m.threads[t].pc)
    ensures Inv(m')
  {
    LocatedKeep(m, m', t, th);
    RunKeep(m, m', t, th);
    KnowsFrame(m, m', t, th, NULL);
    OwnershipFrame(m, m', t, th, NULL);
    NotStrandedFrame(m, m', t, th);
  }

  /** A coroutine begins, changes or ends its own run. */
  lemma Rephase(m: Mutex, m': Mutex, t: nat, th: Thread, c: nat)
    requires Inv(m) && Moved(m, m', t, th) && ThreadKnows(m', th) && c != NULL
    requires m'.owner == m.owner && m'.wait == m.wait && m.doomed <= m'.doomed
    requires forall x: nat :: x != c ==> PhaseOf(m', x) == PhaseOf(m, x)
    requires th.hand == m.threads[t].hand && th.removed == m.threads[t].removed && !m.threads[t].pc.LockSchedule?
    requires m.cancelled ==> m'.cancelled
    requires !PhaseOf(m, c).Asking? && !PhaseOf(m', c).Asking? && Fits(m', c)
    requires m.threads[t].self == if Inside(PhaseOf(m, c)) then c else NULL
    requires th.self == if Inside(PhaseOf(m', c)) then c else NULL
    requires m.owner == NULL && m.wait != [] ==> Repairs(th.pc) || !Repairs(m.threads[t].pc)
    ensures Inv(m')
  {
    LocatedKeep(m, m', t, th);
    RunChange(m, m', t, th, c);
    KnowsFrame(m, m', t, th, c);
    OwnershipFrame(m, m', t, th, c);
    NotStrandedFrame(m, m', t, th);
  }

  lemma HandCount(th: Thread, c: nat)
    ensures Hand(th)[c] == One(th.hand == c != NULL) + One(th.removed == c != NULL)
  {
  }

  /** The front of the wait list goes into the thread's hand, or turns out to be what remove looks for. */
  lemma Take(m: Mutex, m': Mutex, t: nat, th: Thread)
    requires Inv(m) && Moved(m, m', t, th) && ThreadKnows(m', th)
    requires m.wait != [] && m'.wait == m.wait[1..]
    requires m'.owner == m.owner && m'.phases == m.phases && m'.doomed == m.doomed && m'.cancelled == m.cancelled
    requires m.threads[t].hand == NULL && th.self == m.threads[t].self
    requires (th.hand == m.wait[0] && th.removed == m.threads[t].removed)
             || (th.hand == NULL && m.threads[t].removed == NULL && th.removed == m.wait[0])
    requires m.owner == NULL ==> Repairs(th.pc)
    requires !m.threads[t].pc.LockSchedule?
    ensures Inv(m')
  {
    TakeLocated(m, m', t, th);
    RunKeep(m, m', t, th);
    KnowsFrame(m, m', t, th, NULL);
    OwnershipFrame(m, m', t, th, NULL);
    NotStrandedFrame(m, m', t, th);
  }

  lemma TakeLocated(m: Mutex, m': Mutex, t: nat, th: Thread)
    requires Located(m) && PhaseOf(m, NULL).Out? && Moved(m, m', t, th)
    requires m.wait != [] && m'.wait == m.wait[1..] && m'.phases == m.phases && m.threads[t].hand == NULL
    requires (th.hand == m.wait[0] && th.removed == m.threads[t].removed)
             || (th.hand == NULL && m.threads[t].removed == NULL && th.removed == m.wait[0])
    ensures Located(m')
  {
    assert Copies(m, NULL) == 0;
    assert m.wait[0] in multiset(m.wait);
    forall c: nat
      ensures multiset(m'.wait)[c] + Hand(th)[c] == multiset(m.wait)[c] + Hand(m.threads[t])[c]
    {
      FrontCount(m.wait, c);
      HandCount(th, c);
      HandCount(m.threads[t], c);
    }
    LocatedFrame(m, m', t, th);
  }

  /** A coroutine in the thread's hand goes to the end of the wait list. */
  lemma Put(m: Mutex, m': Mutex, t: nat, th: Thread)
    requires Inv(m) && Moved(m, m', t, th) && ThreadKnows(m', th)
    requires m.threads[t].hand != NULL && m'.wait == m.wait + [m.threads[t].hand]
    requires m'.owner == m.owner && m'.phases == m.phases && m'.doomed == m.doomed && m'.cancelled == m.cancelled
    requires th.hand == NULL && th.removed == m.threads[t].removed && th.self == NULL == m.threads[t].self
    requires !m.threads[t].pc.LockSchedule? && Repairs(th.pc)
    ensures Inv(m')
  {
    PutLocated(m, m', t, th);
    RunKeep(m, m', t, th);
    KnowsFrame(m, m', t, th, NULL);
    OwnershipFrame(m, m', t, th, NULL);
    NotStrandedFrame(m, m', t, th);
  }

  lemma PutLocated(m: Mutex, m': Mutex, t: nat, th: Thread)
    requires Located(m) && Moved(m, m', t, th) && m'.phases == m.phases
    requires m.threads[t].hand != NULL && m'.wait == m.wait + [m.threads[t].hand]
    requires th.hand == NULL && th.removed == m.threads[t].removed
    ensures Located(m')
  {
    var x := m.threads[t].hand;
    forall c: nat
      ensures multiset(m'.wait)[c] + Hand(th)[c] == multiset(m.wait)[c] + Hand(m.threads[t])[c]
    {
      assert multiset(m'.wait)[c] == multiset(m.wait)[c] + One(c == x);
    }
    LocatedFrame(m, m', t, th);
  }

  /** A coroutine that the thread holds is scheduled, as the owner or as cancelled. */
  lemma Schedule(m: Mutex, m': Mutex, t: nat, th: Thread, x: nat)
    requires Inv(m) && Moved(m, m', t, th) && ThreadKnows(m', th) && x != NULL
    requires m'.wait == m.wait && m'.owner == m.owner && m'.doomed == m.doomed && m'.cancelled == m.cancelled
    requires m'.phases == m.phases[x := Ready]
    requires (m.threads[t].hand == x && th.hand == NULL && th.removed == m.threads[t].removed)
             || (m.threads[t].removed == x && th.removed == NULL && th.hand == m.threads[t].hand)
    requires m.owner == x || x in m.doomed
    requires th.self == m.threads[t].self
    requires m.threads[t].pc.LockSchedule? ==> m.threads[t].hand == x
    requires m.owner == NULL && m.wait != [] ==> Repairs(th.pc) || !Repairs(m.threads[t].pc)
    ensures Inv(m')
  {
    InHand(m, t, x);
    ScheduleLocated(m, m', t, th, x);
    ScheduleRun(m, m', t, th, x);
    KnowsFrame(m, m', t, th, x);
    OwnershipFrame(m, m', t, th, x);
    NotStrandedFrame(m, m', t, th);
  }

  lemma ScheduleLocated(m: Mutex, m': Mutex, t: nat, th: Thread, x: nat)
    requires Located(m) && Moved(m, m', t, th) && x != NULL && PhaseOf(m, x).Asking?
    requires m'.wait == m.wait && m'.phases == m.phases[x := Ready]
    requires (m.threads[t].hand == x && th.hand == NULL && th.removed == m.threads[t].removed)
             || (m.threads[t].removed == x && th.removed == NULL && th.hand == m.threads[t].hand)
    ensures Located(m')
  {
    LocatedFrame(m, m', t, th);
  }

  lemma ScheduleRun(m: Mutex, m': Mutex, t: nat, th: Thread, x: nat)
    requires RunOnce(m) && Moved(m, m', t, th) && x != NULL && PhaseOf(m, x).Asking?
    requires m'.phases == m.phases[x := Ready] && th.self == m.threads[t].self
    ensures RunOnce(m')
  {
    RunKeep(m, m', t, th);
  }

  // ---------------------------------------------------------------------
  // Changes of owner
  // ---------------------------------------------------------------------

  /** The others keep their knowledge when a free mutex gets an owner that none of them runs or holds. */
  lemma KnowsAcquired(m: Mutex, m': Mutex, t: nat, th: Thread, x: nat)
    requires AllKnow(m) && RunOnce(m) && Moved(m, m', t, th) && ThreadKnows(m', th)
    requires m.owner == NULL && m'.owner == x && m'.doomed == m.doomed && m'.cancelled == m.cancelled
    requires forall c: nat :: c != x ==> PhaseOf(m', c) == PhaseOf(m, c)
    requires forall u :: 0 <= u < |m.threads| && u != t ==> m.threads[u].self != x
    ensures AllKnow(m')
  {
    forall u | 0 <= u < |m'.threads| && u != t
      ensures ThreadKnows(m', m'.threads[u])
    {
      assert m'.threads[u] == m.threads[u] && ThreadKnows(m, m.threads[u]);
    }
  }

  /** tryLock succeeds: the coroutine that runs becomes the owner. */
  lemma TryCasWins(m: Mutex, t: nat)
    requires Inv(m) && t < |m.threads| && m.threads[t].pc.TryCas? && m.owner == NULL
    ensures Inv(AwaiterStep(m, t, false))
  {
    var c := m.threads[t].self;
    var m' := AwaiterStep(m, t, false);
    var th := m.threads[t].(pc := ResumeSelf);
    assert ThreadKnows(m, m.threads[t]);
    LocatedKeep(m, m', t, th);
    RunChange(m, m', t, th, c);
    forall u | 0 <= u < |m.threads| && u != t
      ensures m.threads[u].self != c
    {
      if m.threads[u].self != NULL { OneRunner(m, t, u); }
    }
    KnowsAcquired(m, m', t, th, c);
    AcquiredOwnership(m, m', t, th, c);
    NotStrandedFrame(m, m', t, th);
  }

  lemma AcquiredOwnership(m: Mutex, m': Mutex, t: nat, th: Thread, x: nat)
    requires Ownership(m) && Moved(m, m', t, th) && x != NULL && m.owner == NULL && m'.owner == x
    requires m'.doomed == m.doomed && m'.cancelled == m.cancelled
    requires forall c: nat :: c != x ==> PhaseOf(m', c) == PhaseOf(m, c)
    requires Fits(m', x)
    ensures Ownership(m')
  {
    forall c: nat | c != NULL && c != x
      ensures Fits(m', c)
    {
      assert Fits(m, c);
    }
  }

  /** lock succeeds: the coroutine in hand becomes the owner. */
  lemma LockCasWins(m: Mutex, t: nat)
    requires Inv(m) && t < |m.threads| && m.threads[t].pc.LockCas? && m.owner == NULL
    ensures Inv(LockStep(m, t, false))
  {
    var x := m.threads[t].hand;
    var m' := LockStep(m, t, false);
    var th := m.threads[t].(pc := LockSchedule);
    assert ThreadKnows(m, m.threads[t]);
    InHand(m, t, x);
    LocatedKeep(m, m', t, th);
    RunKeep(m, m', t, th);
    forall u | 0 <= u < |m.threads| && u != t
      ensures m.threads[u].self != x
    {
      if m.threads[u].self != NULL { OneRunner(m, t, u); }
    }
    KnowsAcquired(m, m', t, th, x);
    assert m'.threads[t].pc.LockSchedule? && m'.threads[t].hand == x;
    AcquiredOwnership(m, m', t, th, x);
    NotStrandedFrame(m, m', t, th);
  }

  /** The owner gives the mutex up, to nobody or to the coroutine in its hand. */
  lemma GiveUp(m: Mutex, m': Mutex, t: nat, th: Thread, x: nat)
    requires Inv(m) && Moved(m, m', t, th) && ThreadKnows(m', th)
    requires m.threads[t].pc.Release? || m.threads[t].pc.OwnerRelease? || m.threads[t].pc.HandOver?
    requires m'.owner == x == th.hand == m.threads[t].hand && th.removed == m.threads[t].removed && th.self == NULL
    requires m'.wait == m.wait && m'.doomed == m.doomed && m'.cancelled == m.cancelled
    requires m'.phases == m.phases[m.threads[t].self := Out]
    requires if x == NULL then Repairs(th.pc) else th.pc.LockSchedule?
    ensures Inv(m')
  {
    var c := m.threads[t].self;
    assert ThreadKnows(m, m.threads[t]);
    assert c != NULL && m.owner == c && PhaseOf(m, c).Unlocking?;
    if x != NULL {
      InHand(m, t, x);
    }
    LocatedKeep(m, m', t, th);
    RunChange(m, m', t, th, c);
    GiveUpKnows(m, m', t, th, x);
    GiveUpOwnership(m, m', t, th, x);
    NotStrandedFrame(m, m', t, th);
  }

  lemma GiveUpKnows(m: Mutex, m': Mutex, t: nat, th: Thread, x: nat)
    requires AllKnow(m) && RunOnce(m) && Located(m) && Moved(m, m', t, th) && ThreadKnows(m', th)
    requires m.threads[t].self != NULL && m.owner == m.threads[t].self && PhaseOf(m, m.owner).Unlocking?
    requires m'.owner == x && m'.doomed == m.doomed && m'.cancelled == m.cancelled
    requires m'.phases == m.phases[m.threads[t].self := Out]
    requires x == NULL || PhaseOf(m, x).Asking?
    ensures AllKnow(m')
  {
    forall u | 0 <= u < |m'.threads| && u != t
      ensures ThreadKnows(m', m'.threads[u])
    {
      assert m'.threads[u] == m.threads[u] && ThreadKnows(m, m.threads[u]);
      if m.threads[u].self != NULL {
        OneRunner(m, t, u);
      }
      if m.threads[u].pc.LockSchedule? {
        InHand(m, u, m.threads[u].hand);
      }
    }
  }

  lemma GiveUpOwnership(m: Mutex, m': Mutex, t: nat, th: Thread, x: nat)
    requires Ownership(m) && Moved(m, m', t, th)
    requires m.threads[t].self != NULL && m.owner == m.threads[t].self && PhaseOf(m, m.owner).Unlocking?
    requires m'.owner == x && m'.doomed == m.doomed && m'.cancelled == m.cancelled
    requires m'.phases == m.phases[m.threads[t].self := Out]
    requires x == NULL || (PhaseOf(m, x).Asking? && th.pc.LockSchedule? && th.hand == x)
    ensures Ownership(m')
  {
    forall c: nat | c != NULL
      ensures Fits(m', c)
    {
      assert Fits(m, c);
      if c == x {
        assert m'.threads[t].pc.LockSchedule? && m'.threads[t].hand == x;
      }
    }
  }

  // ---------------------------------------------------------------------
  // All moves
  // ---------------------------------------------------------------------

  lemma InitialInv(m: Mutex)
    requires Initial(m)
    ensures Inv(m)
  {
    GatherNothing(m.threads, Hand);
    GatherNothing(m.threads, Runs);
  }

  lemma DoomPreserves(m: Mutex, c: nat)
    requires Inv(m)
    ensures Inv(m.(doomed := m.doomed + {c}))
  {
    var m' := m.(doomed := m.doomed + {c});
    assert forall x: nat :: Copies(m', x) == Copies(m, x) && Runners(m', x) == Runners(m, x);
    forall t | 0 <= t < |m'.threads|
      ensures ThreadKnows(m', m'.threads[t])
    {
      assert ThreadKnows(m, m.threads[t]);
    }
    forall x: nat | x != NULL
      ensures Fits(m', x)
    {
      assert Fits(m, x);
    }
  }

  lemma StartPreserves(m: Mutex, t: nat, call: Call)
    requires Inv(m) && Enabled(m, Begin(t, call))
    ensures Inv(Start(m, t, call))
  {
    if call.Cancel? || call.Remove? {
      OutsiderStarts(m, t, call);
    } else if call.AwaitDoomed? {
      DoomedStarts(m, t, call.c);
    } else {
      BeginsRun(m, t, call.c, StartPhase(call), StartPc(call));
    }
  }

  lemma OutsiderStarts(m: Mutex, t: nat, call: Call)
    requires Inv(m) && Enabled(m, Begin(t, call)) && (call.Cancel? || call.Remove?)
    ensures Inv(Start(m, t, call))
  {
    var th := if call.Cancel? then IDLE.(pc := CancelSet) else IDLE.(pc := RemoveCount, target := call.c);
    assert Start(m, t, call) == With(m, t, th);
    Look(m, With(m, t, th), t, th);
  }

  lemma DoomedStarts(m: Mutex, t: nat, c: nat)
    requires Inv(m) && Enabled(m, Begin(t, AwaitDoomed(c)))
    ensures Inv(With(Become(m, c, Ready), t, IDLE))
  {
    assert Fits(m, c);
    Rephase(m, With(Become(m, c, Ready), t, IDLE), t, IDLE, c);
  }

  function StartPhase(call: Call): Phase {
    if call.Resume? then Resuming else if call.Unlock? then Unlocking else Trying
  }

  function StartPc(call: Call): Pc {
    if call.Await? then ReadyFlag else if call.AwaitSuspended? then SuspendAdvice
        else if call.Resume? then ResumeSelf else UnlockLoad
  }

  /** A coroutine starts to run its awaiter or its guard's destructor. */
  lemma BeginsRun(m: Mutex, t: nat, c: nat, phase: Phase, pc: Pc)
    requires Inv(m) && t < |m.threads| && m.threads[t] == IDLE && c != NULL
    requires match pc
             case ReadyFlag => phase.Trying? && PhaseOf(m, c).Out?
             case SuspendAdvice => phase.Trying? && PhaseOf(m, c).Out?
             case ResumeSelf => phase.Resuming? && PhaseOf(m, c).Ready?
             case UnlockLoad => phase.Unlocking? && (PhaseOf(m, c).Guarding? || PhaseOf(m, c).Throwing?)
             case _ => false
    ensures Inv(With(Become(m, c, phase), t, IDLE.(pc := pc, self := c)))
  {
    assert Fits(m, c);
    var th := IDLE.(pc := pc, self := c);
    Rephase(m, With(Become(m, c, phase), t, th), t, th, c);
  }

  /** await_ready finds the mutex cancelled: the coroutine goes on to await_resume without owning it. */
  lemma EntersUnlocked(m: Mutex, t: nat)
    requires Inv(m) && t < |m.threads| && m.threads[t].pc.ReadyFlag? && m.cancelled
    ensures Inv(AwaiterStep(m, t, false))
  {
    var c := m.threads[t].self;
    assert ThreadKnows(m, m.threads[t]) && Fits(m, c);
    Rephase(m, AwaiterStep(m, t, false), t, m.threads[t].(pc := ResumeSelf), c);
  }

  /** A coroutine ends its own run, perhaps after being marked as cancelled. */
  lemma Leaves(m: Mutex, marked: Mutex, t: nat, phase: Phase)
    requires Inv(m) && t < |m.threads| && m.threads[t].self != NULL && m.threads[t].removed == NULL
    requires marked == m || marked == m.(doomed := m.doomed + {m.threads[t].self})
    requires !Inside(phase) && !phase.Asking? && Fits(Leave(marked, t, phase, Idle), m.threads[t].self)
    requires !OwnerPc(m.threads[t].pc) && !Carries(m.threads[t].pc) && !Repairs(m.threads[t].pc)
    ensures Inv(Leave(marked, t, phase, Idle))
  {
    var c := m.threads[t].self;
    assert ThreadKnows(m, m.threads[t]);
    Rephase(m, Leave(marked, t, phase, Idle), t, m.threads[t].(pc := Idle, self := NULL), c);
  }

  /** An access that only reads. */
  predicate Looks(m: Mutex, th: Thread, weak: bool) {
    match th.pc
    case ReadyFlag => !m.cancelled
    case TryLoad => true
    case TryCas => m.owner != NULL || weak
    case SuspendAdvice => th.self !in m.doomed || weak
    case SuspendFlag => m.cancelled
    case ResumeSelf => true
    case ResumeFlag => true
    case LockLoad => true
    case LockReload => true
    case LockDequeue => m.wait == []
    case LockCas => m.owner != NULL || weak
    case UnlockLoad => true
    case UnlockOther => m.cancelled
    case UnlockFlag => true
    case OwnerDrain => m.wait == []
    case UnlockDequeue => m.wait == []
    case UnlockRetry => m.wait == []
    case Drain => m.wait == []
    case RemoveCheck => true
    case RemoveDequeue => m.wait == []
    case _ => false
  }

  /** Where the thread goes after reading. */
  function Target(m: Mutex, th: Thread): Pc {
    match th.pc
    case ReadyFlag => TryLoad
    case TryLoad => if m.owner != NULL then SuspendAdvice else TryCas
    case TryCas => if m.owner != NULL then SuspendAdvice else TryCas
    case SuspendAdvice => SuspendFlag
    case SuspendFlag => SuspendMark
    case ResumeSelf => if th.self in m.doomed then ResumeFinish else ResumeFlag
    case ResumeFlag => if m.cancelled then ResumeMark else ResumeFinish
    case LockLoad => if m.owner != NULL then LockEnqueue else LockCas
    case LockReload => if m.owner != NULL then Back(th) else LockDequeue
    case LockCas => if m.owner != NULL then LockEnqueue else LockCas
    case UnlockLoad => if m.owner != th.self then UnlockOther else UnlockFlag
    case UnlockOther => UnlockMark
    case UnlockFlag => if m.cancelled then OwnerMark else UnlockDequeue
    case OwnerDrain => OwnerRelease
    case UnlockDequeue => Release
    case RemoveCheck => if m.owner != NULL then Back(th) else RemoveDequeue
    case LockDequeue => Back(th)
    case RemoveDequeue => Back(th)
    case _ => Idle
  }

  lemma LookStep(m: Mutex, t: nat, weak: bool, turns: nat)
    requires t < |m.threads| && Looks(m, m.threads[t], weak)
    ensures Access(m, t, weak, turns) == Goto(m, t, Target(m, m.threads[t]))
  {
  }

  lemma LookKnows(m: Mutex, th: Thread, weak: bool)
    requires ThreadKnows(m, th) && Looks(m, th, weak)
    requires th.pc.ResumeFlag? ==> m.owner == th.self || th.self in m.doomed || m.cancelled
    ensures ThreadKnows(m, th.(pc := Target(m, th)))
    ensures m.owner == NULL && m.wait != [] ==> Repairs(Target(m, th)) || !Repairs(th.pc)
  {
    if AwaiterPc(th.pc) {
      AwaiterLooks(m, th, weak);
    } else if UnlockPc(th.pc) {
      UnlockLooks(m, th, weak);
    } else {
      OtherLooks(m, th, weak);
    }
  }

  lemma AwaiterLooks(m: Mutex, th: Thread, weak: bool)
    requires ThreadKnows(m, th) && Looks(m, th, weak) && AwaiterPc(th.pc)
    requires th.pc.ResumeFlag? ==> m.owner == th.self || th.self in m.doomed || m.cancelled
    ensures ThreadKnows(m, th.(pc := Target(m, th))) && !Repairs(th.pc)
  {
  }

  lemma UnlockLooks(m: Mutex, th: Thread, weak: bool)
    requires ThreadKnows(m, th) && Looks(m, th, weak) && UnlockPc(th.pc)
    ensures ThreadKnows(m, th.(pc := Target(m, th))) && (m.wait != [] ==> !Repairs(th.pc))
  {
  }

  lemma OtherLooks(m: Mutex, th: Thread, weak: bool)
    requires ThreadKnows(m, th) && Looks(m, th, weak) && !AwaiterPc(th.pc) && !UnlockPc(th.pc)
    ensures ThreadKnows(m, th.(pc := Target(m, th)))
    ensures m.owner == NULL && m.wait != [] ==> Repairs(Target(m, th))
  {
  }

  lemma LookPreserves(m: Mutex, t: nat, weak: bool)
    requires Inv(m) && t < |m.threads| && Looks(m, m.threads[t], weak)
    ensures Inv(Goto(m, t, Target(m, m.threads[t])))
  {
    var th := m.threads[t];
    assert ThreadKnows(m, th);
    assert th.self != NULL ==> Fits(m, th.self);
    LookKnows(m, th, weak);
    Look(m, Goto(m, t, Target(m, th)), t, th.(pc := Target(m, th)));
  }

  /** An access that marks a coroutine, or the mutex, as cancelled, or counts the wait list. */
  lemma MarkPreserves(m: Mutex, t: nat, turns: nat)
    requires Inv(m) && t < |m.threads| && Marks(m.threads[t].pc)
    ensures Inv(Access(m, t, false, turns))
  {
    var th := m.threads[t];
    var m' := Access(m, t, false, turns);
    assert ThreadKnows(m, th);
    MarkStep(m, t, turns);
    MarkKnows(m, m', th, m'.threads[t]);
    Look(m, m', t, m'.threads[t]);
  }

  predicate Marks(pc: Pc) {
    pc.ResumeMark? || pc.OwnerMark? || pc.OwnerDrop? || pc.DrainDrop? || pc.CancelSet? || pc.RemoveCount?
  }

  function AfterMark(pc: Pc): Pc {
    if pc.ResumeMark? then ResumeFinish else if pc.OwnerMark? then OwnerDrain else if pc.OwnerDrop? then OwnerSchedule
    else if pc.DrainDrop? then DrainSchedule else if pc.CancelSet? then Drain else RemoveTake
  }

  lemma MarkStep(m: Mutex, t: nat, turns: nat)
    requires t < |m.threads| && Marks(m.threads[t].pc)
    ensures var m', th := Access(m, t, false, turns), m.threads[t];
            && Moved(m, m', t, m'.threads[t])
            && m'.owner == m.owner && m'.wait == m.wait && m'.phases == m.phases
            && m.doomed <= m'.doomed && (m.cancelled ==> m'.cancelled)
            && m'.threads[t] == th.(pc := AfterMark(th.pc), left := m'.threads[t].left)
            && (th.pc.ResumeMark? ==> th.self in m'.doomed)
            && (th.pc.OwnerDrop? || th.pc.DrainDrop? ==> th.hand in m'.doomed)
  {
  }

  lemma MarkKnows(m: Mutex, m': Mutex, th: Thread, th': Thread)
    requires ThreadKnows(m, th) && Marks(th.pc)
    requires m'.owner == m.owner && m'.phases == m.phases && m.doomed <= m'.doomed
    requires th' == th.(pc := AfterMark(th.pc), left := th'.left)
    requires th.pc.ResumeMark? ==> th.self in m'.doomed
    requires th.pc.OwnerDrop? || th.pc.DrainDrop? ==> th.hand in m'.doomed
    ensures ThreadKnows(m', th') && Repairs(th'.pc) == Repairs(th.pc)
  {
  }

  /** A coroutine ends its own run without owning or waiting for the mutex, or to hold its guard. */
  lemma LeavePreserves(m: Mutex, t: nat, weak: bool, turns: nat)
    requires Inv(m) && t < |m.threads|
    requires match m.threads[t].pc
             case SuspendAdvice => m.threads[t].self in m.doomed && !weak
             case SuspendMark => true
             case ResumeFinish => true
             case UnlockOther => !m.cancelled
             case UnlockMark => true
             case _ => false
    ensures Inv(Access(m, t, weak, turns))
  {
    var c := m.threads[t].self;
    assert ThreadKnows(m, m.threads[t]) && Fits(m, c);
    match m.threads[t].pc
    case SuspendAdvice => Leaves(m, m, t, Ready);
    case SuspendMark => Leaves(m, m.(doomed := m.doomed + {c}), t, Ready);
    case ResumeFinish => Leaves(m, m, t, if c in m.doomed then Throwing else Guarding);
    case UnlockOther => Leaves(m, m, t, Out);
    case UnlockMark => Leaves(m, m.(doomed := m.doomed + {c}), t, Out);
  }

  /** Every access keeps the invariant. */
  lemma AccessPreserves(m: Mutex, t: nat, weak: bool, turns: nat)
    requires Inv(m) && t < |m.threads| && !m.threads[t].pc.Idle?
    ensures Inv(Access(m, t, weak, turns))
  {
    if Looks(m, m.threads[t], weak) {
      LookStep(m, t, weak, turns);
      LookPreserves(m, t, weak);
    } else {
      match m.threads[t].pc
      case ReadyFlag => EntersUnlocked(m, t);
      case TryCas => TryCasWins(m, t);
      case SuspendFlag => Asks(m, t);
      case LockCas => LockCasWins(m, t);
      case LockEnqueue => LockPuts(m, t);
      case LockSchedule => LockSchedules(m, t);
      case LockDequeue => LockTakes(m, t, LockCas);
      case UnlockRetry => LockTakes(m, t, LockLoad);
      case RemoveDequeue => LockTakes(m, t, LockLoad);
      case Release => GivesUp(m, t);
      case OwnerRelease => GivesUp(m, t);
      case HandOver => GivesUp(m, t);
      case OwnerSchedule => OwnerSchedules(m, t);
      case OwnerDrain => OwnerTakes(m, t, OwnerDrop);
      case UnlockDequeue => OwnerTakes(m, t, HandOver);
      case Drain => DrainTakes(m, t);
      case DrainSchedule => CancelSchedules(m, t, turns);
      case RemovedSchedule => CancelSchedules(m, t, turns);
      case RemoveTake => RemovePreserves(m, t, turns);
      case RemovePut => RemovePuts(m, t);
      case SuspendAdvice => LeavePreserves(m, t, weak, turns);
      case SuspendMark => LeavePreserves(m, t, weak, turns);
      case ResumeFinish => LeavePreserves(m, t, weak, turns);
      case UnlockOther => LeavePreserves(m, t, weak, turns);
      case UnlockMark => LeavePreserves(m, t, weak, turns);
      case _ => MarkPreserves(m, t, turns);
    }
  }

  lemma RemovePreserves(m: Mutex, t: nat, turns: nat)
    requires Inv(m) && t < |m.threads| && m.threads[t].pc.RemoveTake?
    ensures Inv(CancelStep(m, t, turns))
  {
    if m.threads[t].left == 0 || m.wait == [] {
      RemoveEnds(m, t, turns);
    } else {
      RemoveTakes(m, t, turns);
    }
  }

  /** The coroutine passes itself to lock. */
  lemma Asks(m: Mutex, t: nat)
    requires Inv(m) && t < |m.threads| && m.threads[t].pc.SuspendFlag? && !m.cancelled
    ensures Inv(AwaiterStep(m, t, false))
  {
    var m' := AwaiterStep(m, t, false);
    var c := m.threads[t].self;
    var th := m.threads[t].(pc := LockLoad, self := NULL, hand := c);
    assert ThreadKnows(m, m.threads[t]) && Fits(m, c);
    AsksLocated(m, m', t, th, c);
    RunChange(m, m', t, th, c);
    KnowsFrame(m, m', t, th, c);
    OwnershipFrame(m, m', t, th, c);
    NotStrandedFrame(m, m', t, th);
  }

  lemma AsksLocated(m: Mutex, m': Mutex, t: nat, th: Thread, c: nat)
    requires Located(m) && Moved(m, m', t, th) && c != NULL && !PhaseOf(m, c).Asking?
    requires m'.wait == m.wait && m'.phases == m.phases[c := Asking]
    requires m.threads[t].hand == NULL && th.hand == c && th.removed == m.threads[t].removed
    ensures Located(m')
  {
    LocatedFrame(m, m', t, th);
  }

  lemma LockPuts(m: Mutex, t: nat)
    requires Inv(m) && t < |m.threads| && m.threads[t].pc.LockEnqueue?
    ensures Inv(PutBack(m, t, LockReload))
  {
    assert ThreadKnows(m, m.threads[t]);
    Put(m, PutBack(m, t, LockReload), t, m.threads[t].(pc := LockReload, hand := NULL));
  }

  lemma LockSchedules(m: Mutex, t: nat)
    requires Inv(m) && t < |m.threads| && m.threads[t].pc.LockSchedule?
    ensures Inv(ScheduleHand(m, t, Back(m.threads[t])))
  {
    var pc' := Back(m.threads[t]);
    assert ThreadKnows(m, m.threads[t]);
    Schedule(m, ScheduleHand(m, t, pc'), t, m.threads[t].(pc := pc', hand := NULL), m.threads[t].hand);
  }

  /** A dequeue that brings a coroutine to lock. */
  lemma LockTakes(m: Mutex, t: nat, pc: Pc)
    requires Inv(m) && t < |m.threads| && m.wait != []
    requires m.threads[t].pc.LockDequeue? || m.threads[t].pc.UnlockRetry? || m.threads[t].pc.RemoveDequeue?
    requires pc == if m.threads[t].pc.LockDequeue? then LockCas else LockLoad
    ensures Inv(TakeFront(m, t, pc))
  {
    assert ThreadKnows(m, m.threads[t]);
    Dequeued(m);
    TakerKnows(m, TakeFront(m, t, pc), m.threads[t], pc);
    Take(m, TakeFront(m, t, pc), t, m.threads[t].(pc := pc, hand := m.wait[0]));
  }

  lemma TakerKnows(m: Mutex, m': Mutex, th: Thread, pc: Pc)
    requires ThreadKnows(m, th) && m.wait != [] && m.wait[0] != NULL && (pc.LockCas? || pc.LockLoad?)
    requires th.pc.LockDequeue? || th.pc.UnlockRetry? || th.pc.RemoveDequeue?
    requires m' == m.(wait := m.wait[1..], threads := m'.threads)
    ensures ThreadKnows(m', th.(pc := pc, hand := m.wait[0])) && th.hand == NULL && th.self == NULL
  {
  }

  /** A dequeue by a loop that cancels every waiter. */
  lemma DrainTakes(m: Mutex, t: nat)
    requires Inv(m) && t < |m.threads| && m.wait != [] && m.threads[t].pc.Drain?
    ensures Inv(TakeFront(m, t, DrainDrop))
  {
    assert ThreadKnows(m, m.threads[t]);
    Dequeued(m);
    Take(m, TakeFront(m, t, DrainDrop), t, m.threads[t].(pc := DrainDrop, hand := m.wait[0]));
  }

  /** A dequeue by the owner, inside unlock. */
  lemma OwnerTakes(m: Mutex, t: nat, pc: Pc)
    requires Inv(m) && t < |m.threads| && m.wait != []
    requires (m.threads[t].pc.OwnerDrain? && pc.OwnerDrop?) || (m.threads[t].pc.UnlockDequeue? && pc.HandOver?)
    ensures Inv(TakeFront(m, t, pc))
  {
    assert ThreadKnows(m, m.threads[t]);
    Dequeued(m);
    Take(m, TakeFront(m, t, pc), t, m.threads[t].(pc := pc, hand := m.wait[0]));
  }

  /** What is dequeued is a coroutine. */
  lemma Dequeued(m: Mutex)
    requires Inv(m) && m.wait != []
    ensures m.wait[0] != NULL
  {
    assert Copies(m, NULL) == 0;
    assert m.wait[0] in multiset(m.wait);
  }

  lemma GivesUp(m: Mutex, t: nat)
    requires Inv(m) && t < |m.threads|
    requires m.threads[t].pc.Release? || m.threads[t].pc.OwnerRelease? || m.threads[t].pc.HandOver?
    ensures Inv(UnlockStep(m, t))
  {
    var m' := UnlockStep(m, t);
    assert ThreadKnows(m, m.threads[t]);
    GiveUpStep(m, t);
    GiveUp(m, m', t, m'.threads[t], m'.owner);
  }

  /** The store with which unlock gives the ownership away. */
  lemma GiveUpStep(m: Mutex, t: nat)
    requires t < |m.threads| && ThreadKnows(m, m.threads[t])
    requires m.threads[t].pc.Release? || m.threads[t].pc.OwnerRelease? || m.threads[t].pc.HandOver?
    ensures var m', th := UnlockStep(m, t), m.threads[t];
            && |m'.threads| == |m.threads| && Moved(m, m', t, m'.threads[t]) && m'.owner == th.hand
            && m'.phases == m.phases[th.self := Out]
            && m'.wait == m.wait && m'.doomed == m.doomed && m'.cancelled == m.cancelled
            && m'.threads[t] == th.(pc := m'.threads[t].pc, self := NULL)
            && (if th.hand == NULL then m'.threads[t].pc.UnlockRetry? || m'.threads[t].pc.Drain?
                 else m'.threads[t].pc.LockSchedule?)
  {
  }

  lemma OwnerSchedules(m: Mutex, t: nat)
    requires Inv(m) && t < |m.threads| && m.threads[t].pc.OwnerSchedule?
    ensures Inv(ScheduleHand(m, t, OwnerDrain))
  {
    assert ThreadKnows(m, m.threads[t]);
    InHand(m, t, m.threads[t].hand);
    Schedule(m, ScheduleHand(m, t, OwnerDrain), t, m.threads[t].(pc := OwnerDrain, hand := NULL), m.threads[t].hand);
  }

  /** remove gives up without having found its target. */
  lemma RemoveEnds(m: Mutex, t: nat, turns: nat)
    requires Inv(m) && t < |m.threads| && m.threads[t].pc.RemoveTake? && (m.threads[t].left == 0 || m.wait == [])
    ensures Inv(CancelStep(m, t, turns))
  {
    assert ThreadKnows(m, m.threads[t]);
    Look(m, With(m, t, IDLE.(pc := RemoveCheck)), t, IDLE.(pc := RemoveCheck));
  }

  lemma CancelSchedules(m: Mutex, t: nat, turns: nat)
    requires Inv(m) && t < |m.threads| && (m.threads[t].pc.DrainSchedule? || m.threads[t].pc.RemovedSchedule?)
    ensures Inv(CancelStep(m, t, turns))
  {
    if m.threads[t].pc.DrainSchedule? {
      DrainSchedules(m, t);
      assert CancelStep(m, t, turns) == ScheduleHand(m, t, Drain);
    } else {
      RemovedSchedules(m, t);
      assert CancelStep(m, t, turns) == With(Become(m, m.threads[t].removed, Ready), t, IDLE);
    }
  }

  lemma DrainSchedules(m: Mutex, t: nat)
    requires Inv(m) && t < |m.threads| && m.threads[t].pc.DrainSchedule?
    ensures Inv(ScheduleHand(m, t, Drain))
  {
    assert ThreadKnows(m, m.threads[t]);
    Schedule(m, ScheduleHand(m, t, Drain), t, m.threads[t].(pc := Drain, hand := NULL), m.threads[t].hand);
  }

  lemma RemovedSchedules(m: Mutex, t: nat)
    requires Inv(m) && t < |m.threads| && m.threads[t].pc.RemovedSchedule?
    ensures Inv(With(Become(m, m.threads[t].removed, Ready), t, IDLE))
  {
    assert ThreadKnows(m, m.threads[t]);
    Schedule(m, With(Become(m, m.threads[t].removed, Ready), t, IDLE), t, IDLE, m.threads[t].removed);
  }

  /** remove has found its target. */
  lemma RemoveFinds(m: Mutex, t: nat)
    requires Inv(m) && t < |m.threads| && m.threads[t].pc.RemoveTake? && m.wait != []
    requires m.wait[0] == m.threads[t].target != NULL
    ensures Inv(With(m.(wait := m.wait[1..]), t, IDLE.(pc := RemoveCheck, removed := m.threads[t].target)))
  {
    var th := IDLE.(pc := RemoveCheck, removed := m.threads[t].target);
    assert ThreadKnows(m, m.threads[t]);
    Take(m, With(m.(wait := m.wait[1..]), t, th), t, th);
  }

  /** remove takes another coroutine, which it will put back. */
  lemma RemovePasses(m: Mutex, t: nat)
    requires Inv(m) && t < |m.threads| && m.threads[t].pc.RemoveTake? && m.threads[t].left > 0 && m.wait != []
    ensures var th := m.threads[t].(pc := RemovePut, hand := m.wait[0], left := m.threads[t].left - 1);
            Inv(With(m.(wait := m.wait[1..]), t, th))
  {
    var th := m.threads[t].(pc := RemovePut, hand := m.wait[0], left := m.threads[t].left - 1);
    assert ThreadKnows(m, m.threads[t]);
    Dequeued(m);
    Take(m, With(m.(wait := m.wait[1..]), t, th), t, th);
  }

  lemma RemoveTakes(m: Mutex, t: nat, turns: nat)
    requires Inv(m) && t < |m.threads| && m.threads[t].pc.RemoveTake? && m.threads[t].left > 0 && m.wait != []
    ensures Inv(CancelStep(m, t, turns))
  {
    RemoveTakeStep(m, t, turns);
    if m.wait[0] == m.threads[t].target {
      Dequeued(m);
      RemoveFinds(m, t);
    } else {
      RemovePasses(m, t);
    }
  }

  lemma RemoveTakeStep(m: Mutex, t: nat, turns: nat)
    requires t < |m.threads| && m.threads[t].pc.RemoveTake? && m.threads[t].left > 0 && m.wait != []
    ensures var th := m.threads[t];
            CancelStep(m, t, turns) ==
              With(m.(wait := m.wait[1..]), t,
                   if m.wait[0] == th.target then IDLE.(pc := RemoveCheck, removed := th.target)
                   else th.(pc := RemovePut, hand := m.wait[0], left := th.left - 1))
  {
  }

  lemma RemovePuts(m: Mutex, t: nat)
    requires Inv(m) && t < |m.threads| && m.threads[t].pc.RemovePut?
    ensures Inv(PutBack(m, t, RemoveTake))
  {
    assert ThreadKnows(m, m.threads[t]);
    Put(m, PutBack(m, t, RemoveTake), t, m.threads[t].(pc := RemoveTake, hand := NULL));
  }

  /** The invariant is kept by every move. */
  lemma Preserved(m: Mutex, mv: Move)
    requires Inv(m)
    ensures Inv(Next(m, mv))
  {
    if Enabled(m, mv) {
      match mv
      case Doom(c) => DoomPreserves(m, c);
      case Begin(t, call) => StartPreserves(m, t, call);
      case Step(t, weak, turns) => AccessPreserves(m, t, weak, turns);
    }
  }
}
