/** What the mutex promises, over every run of every number of threads. */
module AsyncMutexTheorems {
  import opened Tally
  import opened AsyncMutex
  import opened AsyncMutexProof

  /** A run so far, with the calls of lock and the schedules that answered them, as owner or as cancelled. */
  datatype History = History(mutex: Mutex, asked: multiset<nat>, granted: multiset<nat>, dropped: multiset<nat>)

  function AskedBy(m: Mutex, mv: Move): multiset<nat> {
    if mv.Step? && Enabled(m, mv) && m.threads[mv.thread].pc.SuspendFlag? && !m.cancelled
        then multiset{m.threads[mv.thread].self}
    else multiset{}
  }

  function GrantedBy(m: Mutex, mv: Move): multiset<nat> {
    if mv.Step? && Enabled(m, mv) && m.threads[mv.thread].pc.LockSchedule? then multiset{m.threads[mv.thread].hand}
        else multiset{}
  }

  function DroppedBy(m: Mutex, mv: Move): multiset<nat> {
    if !mv.Step? || !Enabled(m, mv) then multiset{} else
    var th := m.threads[mv.thread];
    if th.pc.OwnerSchedule? || th.pc.DrainSchedule? then multiset{th.hand}
    else if th.pc.RemovedSchedule? then multiset{th.removed}
    else multiset{}
  }

  function Execute(m: Mutex, moves: seq<Move>): History {
    if moves == [] then History(m, multiset{}, multiset{}, multiset{}) else
    var h := Execute(m, moves[..|moves| - 1]);
    var mv := moves[|moves| - 1];
    History(Next(h.mutex, mv), h.asked + AskedBy(h.mutex, mv), h.granted + GrantedBy(h.mutex, mv),
        h.dropped + DroppedBy(h.mutex, mv))
  }

  lemma {:induction false} Reachable(m: Mutex, moves: seq<Move>)
    requires Initial(m)
    ensures Inv(Execute(m, moves).mutex)
  {
    if moves == [] {
      InitialInv(m);
    } else {
      Reachable(m, moves[..|moves| - 1]);
      Preserved(Execute(m, moves[..|moves| - 1]).mutex, moves[|moves| - 1]);
    }
  }

  // ---------------------------------------------------------------------
  // No stranded waiter
  // ---------------------------------------------------------------------

  /** Inside lock, unlock, cancel, remove, or the awaiter's cancel. */
  predicate InsideMutex(pc: Pc) {
    !pc.Idle? && !AwaiterPc(pc)
  }

  ghost predicate NobodyInside(m: Mutex) {
    forall t :: 0 <= t < |m.threads| ==> !InsideMutex(m.threads[t].pc)
  }

  lemma NobodyRepairs(m: Mutex)
    requires NotStranded(m) && NobodyInside(m)
    ensures m.owner == NULL ==> m.wait == []
  {
  }

  /** Whenever no thread is inside lock, unlock, cancel or remove, a mutex without an owner has no waiters. */
  lemma {:induction false} NoStrandedWaiter(m: Mutex, moves: seq<Move>)
    requires Initial(m) && NobodyInside(Execute(m, moves).mutex)
    ensures Execute(m, moves).mutex.owner == NULL ==> Execute(m, moves).mutex.wait == []
  {
    Reachable(m, moves);
    NobodyRepairs(Execute(m, moves).mutex);
  }

  // ---------------------------------------------------------------------
  // Mutual exclusion
  // ---------------------------------------------------------------------

  /**
   A coroutine whose await_resume returned normally owns the mutex until its
   guard is destroyed; there is at most one.
   */
  lemma {:induction false} MutualExclusion(m: Mutex, moves: seq<Move>, c: nat, d: nat)
    requires Initial(m)
    requires PhaseOf(Execute(m, moves).mutex, c).Guarding? && PhaseOf(Execute(m, moves).mutex, d).Guarding?
    ensures c == d == Execute(m, moves).mutex.owner
  {
    Reachable(m, moves);
    var m' := Execute(m, moves).mutex;
    assert c != NULL ==> Fits(m', c);
    assert d != NULL ==> Fits(m', d);
  }

  /** Only unlock takes a mutex away from its owner. */
  lemma OwnerKept(m: Mutex, t: nat, weak: bool, turns: nat)
    requires t < |m.threads| && m.owner != NULL && !UnlockPc(m.threads[t].pc)
    ensures Access(m, t, weak, turns).owner == m.owner
  {
    if AwaiterPc(m.threads[t].pc) {
      assert Access(m, t, weak, turns) == AwaiterStep(m, t, weak);
    } else if LockPc(m.threads[t].pc) {
      assert Access(m, t, weak, turns) == LockStep(m, t, weak);
    } else {
      assert Access(m, t, weak, turns) == CancelStep(m, t, turns);
    }
  }

  lemma UnlockOwner(m: Mutex, t: nat)
    requires t < |m.threads| && UnlockStep(m, t).owner != m.owner
    ensures m.threads[t].pc.Release? || m.threads[t].pc.OwnerRelease? || m.threads[t].pc.HandOver?
    ensures UnlockStep(m, t).phases == m.phases[m.threads[t].self := Out]
    ensures UnlockStep(m, t).owner == if m.threads[t].pc.HandOver? then m.threads[t].hand else NULL
  {
  }

  lemma OwnerStep(m: Mutex, t: nat, weak: bool, turns: nat)
    requires t < |m.threads| && m.owner != NULL && Access(m, t, weak, turns).owner != m.owner
    ensures m.threads[t].pc.Release? || m.threads[t].pc.OwnerRelease? || m.threads[t].pc.HandOver?
    ensures Access(m, t, weak, turns).phases == m.phases[m.threads[t].self := Out]
    ensures Access(m, t, weak, turns).owner == if m.threads[t].pc.HandOver? then m.threads[t].hand else NULL
  {
    if UnlockPc(m.threads[t].pc) {
      UnlockOwner(m, t);
    } else {
      OwnerKept(m, t, weak, turns);
    }
  }

  /** An owner is replaced only by its own unlock, and only by nobody or by a waiting coroutine. */
  lemma OwnerChangesItself(m: Mutex, mv: Move)
    requires Inv(m) && m.owner != NULL && Next(m, mv).owner != m.owner
    ensures mv.Step? && mv.thread < |m.threads| && m.threads[mv.thread].self == m.owner
    ensures PhaseOf(m, m.owner).Unlocking? && PhaseOf(Next(m, mv), m.owner).Out?
    ensures Next(m, mv).owner != NULL ==> PhaseOf(m, Next(m, mv).owner).Asking?
  {
    OwnerStep(m, mv.thread, mv.weak, mv.turns);
    assert ThreadKnows(m, m.threads[mv.thread]);
    if m.threads[mv.thread].pc.HandOver? {
      InHand(m, mv.thread, m.threads[mv.thread].hand);
    }
  }

  /**
   An owner is on its way to unlock: about to resume, holding or dropping its
   guard, or being scheduled by the thread that made it the owner.
   */
  lemma {:induction false} OwnerWillUnlock(m: Mutex, moves: seq<Move>)
    requires Initial(m) && Execute(m, moves).mutex.owner != NULL
    ensures var m' := Execute(m, moves).mutex;
            !PhaseOf(m', m'.owner).Out? && !PhaseOf(m', m'.owner).Trying?
            && (PhaseOf(m', m'.owner).Asking? ==> Scheduling(m'.threads, m'.owner))
  {
    Reachable(m, moves);
    assert Fits(Execute(m, moves).mutex, Execute(m, moves).mutex.owner);
  }

  // ---------------------------------------------------------------------
  // Conservation of waiters
  // ---------------------------------------------------------------------

  /** A coroutine is scheduled as the owner it is, or as cancelled. */
  lemma ScheduledRightly(m: Mutex, mv: Move, c: nat)
    requires Inv(m)
    ensures c in GrantedBy(m, mv) ==> m.owner == c && PhaseOf(m, c).Asking?
    ensures c in DroppedBy(m, mv) ==> c in m.doomed && PhaseOf(m, c).Asking?
  {
    if mv.Step? && Enabled(m, mv) {
      assert ThreadKnows(m, m.threads[mv.thread]);
      if c in GrantedBy(m, mv) || c in DroppedBy(m, mv) {
        HandCount(m.threads[mv.thread], c);
        InHand(m, mv.thread, c);
      }
    }
  }

  /** The phase Asking begins with a call of lock and ends with one schedule. */
  lemma AskingStep(m: Mutex, mv: Move, c: nat)
    requires Inv(m)
    ensures AskedBy(m, mv)[c] + One(PhaseOf(m, c).Asking?) ==
            GrantedBy(m, mv)[c] + DroppedBy(m, mv)[c] + One(PhaseOf(Next(m, mv), c).Asking?)
  {
    if Enabled(m, mv) && mv.Step? {
      assert ThreadKnows(m, m.threads[mv.thread]);
      ScheduledRightly(m, mv, c);
      var pc := m.threads[mv.thread].pc;
      if AwaiterPc(pc) {
        AwaiterAsks(m, mv, c);
      } else {
        AskingAccess(m, mv, c);
      }
    }
  }

  lemma AwaiterAsks(m: Mutex, mv: Move, c: nat)
    requires Enabled(m, mv) && mv.Step? && AwaiterPc(m.threads[mv.thread].pc) && ThreadKnows(m, m.threads[mv.thread])
    ensures AskedBy(m, mv)[c] + One(PhaseOf(m, c).Asking?) ==
            One(PhaseOf(AwaiterStep(m, mv.thread, mv.weak), c).Asking?)
  {
  }

  /** An access that schedules a coroutine, and the coroutine. */
  predicate Schedules(th: Thread) {
    th.pc.LockSchedule? || th.pc.OwnerSchedule? || th.pc.DrainSchedule? || th.pc.RemovedSchedule?
  }

  function Scheduled(th: Thread): nat {
    if th.pc.RemovedSchedule? then th.removed else th.hand
  }

  /** Outside the awaiter a coroutine stops asking exactly when it is scheduled. */
  lemma AskingAccess(m: Mutex, mv: Move, c: nat)
    requires Enabled(m, mv) && mv.Step? && !AwaiterPc(m.threads[mv.thread].pc) && ThreadKnows(m, m.threads[mv.thread])
    requires c in GrantedBy(m, mv) || c in DroppedBy(m, mv) ==> PhaseOf(m, c).Asking?
    ensures One(PhaseOf(m, c).Asking?) ==
            GrantedBy(m, mv)[c] + DroppedBy(m, mv)[c] + One(PhaseOf(Next(m, mv), c).Asking?)
  {
    if Schedules(m.threads[mv.thread]) {
      SomebodyScheduled(m, mv);
      SchedulePhases(m, mv.thread, mv.weak, mv.turns);
    } else {
      NobodyScheduled(m, mv);
      StillAsking(m, mv.thread, mv.weak, mv.turns, c);
    }
  }

  /** An access that schedules nobody ends no wait. */
  lemma StillAsking(m: Mutex, t: nat, weak: bool, turns: nat, c: nat)
    requires t < |m.threads| && !AwaiterPc(m.threads[t].pc) && !Schedules(m.threads[t]) && ThreadKnows(m, m.threads[t])
    ensures PhaseOf(Access(m, t, weak, turns), c).Asking? == PhaseOf(m, c).Asking?
  {
    OutsidePhases(m, t, weak, turns);
    NotServingAsking(m, m.threads[t], c);
  }

  lemma NotServingAsking(m: Mutex, th: Thread, c: nat)
    requires ThreadKnows(m, th)
    ensures c == th.self != NULL ==> !PhaseOf(m, c).Asking?
  {
  }

  lemma SomebodyScheduled(m: Mutex, mv: Move)
    requires Enabled(m, mv) && mv.Step? && Schedules(m.threads[mv.thread])
    ensures GrantedBy(m, mv) + DroppedBy(m, mv) == multiset{Scheduled(m.threads[mv.thread])}
  {
  }

  lemma NobodyScheduled(m: Mutex, mv: Move)
    requires Enabled(m, mv) && mv.Step? && !Schedules(m.threads[mv.thread])
    ensures GrantedBy(m, mv) == DroppedBy(m, mv) == multiset{}
  {
  }

  lemma SchedulePhases(m: Mutex, t: nat, weak: bool, turns: nat)
    requires t < |m.threads| && Schedules(m.threads[t])
    ensures Access(m, t, weak, turns).phases == m.phases[Scheduled(m.threads[t]) := Ready]
  {
  }

  /** The other accesses end at most the run of the coroutine that they serve. */
  lemma OutsidePhases(m: Mutex, t: nat, weak: bool, turns: nat)
    requires t < |m.threads| && !AwaiterPc(m.threads[t].pc) && !Schedules(m.threads[t])
    ensures var phases := Access(m, t, weak, turns).phases;
            phases == m.phases || phases == m.phases[m.threads[t].self := Out]
  {
    if LockPc(m.threads[t].pc) {
      assert LockStep(m, t, weak).phases == m.phases;
    } else if UnlockPc(m.threads[t].pc) {
      UnlockPhases(m, t);
    } else {
      assert CancelStep(m, t, turns).phases == m.phases;
    }
  }

  lemma UnlockPhases(m: Mutex, t: nat)
    requires t < |m.threads| && UnlockPc(m.threads[t].pc) && !Schedules(m.threads[t])
    ensures UnlockStep(m, t).phases == m.phases || UnlockStep(m, t).phases == m.phases[m.threads[t].self := Out]
  {
  }

  /** Every call of lock has been answered by exactly one schedule, except the one a coroutine is still waiting on. */
  ghost predicate Accounted(h: History, c: nat) {
    h.asked[c] == h.granted[c] + h.dropped[c] + One(PhaseOf(h.mutex, c).Asking?)
  }

  lemma AccountedStep(h: History, mv: Move, h': History, c: nat)
    requires Inv(h.mutex) && Accounted(h, c)
    requires h' == History(Next(h.mutex, mv), h.asked + AskedBy(h.mutex, mv), h.granted + GrantedBy(h.mutex, mv),
             h.dropped + DroppedBy(h.mutex, mv))
    ensures Accounted(h', c)
  {
    AskingStep(h.mutex, mv, c);
  }

  /**
   Conservation. At every moment each call of lock has been answered once, as
   owner or as cancelled, except that a coroutine still waiting stands in the
   wait list or lies in one thread's hand, exactly once.
   */
  lemma {:induction false} WaitersConserved(m: Mutex, moves: seq<Move>, c: nat)
    requires Initial(m)
    ensures Accounted(Execute(m, moves), c)
    ensures Copies(Execute(m, moves).mutex, c) == One(PhaseOf(Execute(m, moves).mutex, c).Asking?)
  {
    Reachable(m, moves);
    if moves != [] {
      WaitersConserved(m, moves[..|moves| - 1], c);
      Reachable(m, moves[..|moves| - 1]);
      AccountedStep(Execute(m, moves[..|moves| - 1]), moves[|moves| - 1], Execute(m, moves), c);
    }
  }

  // ---------------------------------------------------------------------
  // The way of a coroutine
  // ---------------------------------------------------------------------

  /**
   What one move makes of a coroutine's phase. Every co_await comes to
   await_resume: with the ownership, cancelled, or by way of the wait list; every
   guard, kept or dropped in a throw, comes to one unlock.
   */
  ghost predicate Follows(m: Mutex, m': Mutex, c: nat) {
    var p, p' := PhaseOf(m, c), PhaseOf(m', c);
    || p' == p
    || match p
       case Out => p'.Trying? || (p'.Ready? && c in m.doomed)
       case Trying => p'.Asking? || (p'.Ready? && c in m'.doomed) || (p'.Resuming? && (m'.owner == c || m.cancelled))
       case Asking => p'.Ready? && (m.owner == c || c in m.doomed)
       case Ready => p'.Resuming?
       case Resuming => (p'.Guarding? && m.owner == c && c !in m.doomed) || (p'.Throwing? && c in m.doomed)
       case Guarding => p'.Unlocking?
       case Throwing => p'.Unlocking?
       case Unlocking => p'.Out? && m'.owner != c
  }

  lemma AwaiterFollows(m: Mutex, t: nat, weak: bool, c: nat)
    requires t < |m.threads| && AwaiterPc(m.threads[t].pc) && ThreadKnows(m, m.threads[t])
    ensures Follows(m, AwaiterStep(m, t, weak), c)
  {
  }

  lemma LockFollows(m: Mutex, t: nat, weak: bool, c: nat)
    requires Inv(m) && t < |m.threads| && LockPc(m.threads[t].pc)
    ensures Follows(m, LockStep(m, t, weak), c)
  {
    assert ThreadKnows(m, m.threads[t]);
    if m.threads[t].pc.LockSchedule? {
      InHand(m, t, m.threads[t].hand);
    }
  }

  lemma UnlockFollows(m: Mutex, t: nat, c: nat)
    requires Inv(m) && t < |m.threads| && UnlockPc(m.threads[t].pc)
    ensures Follows(m, UnlockStep(m, t), c)
  {
    assert ThreadKnows(m, m.threads[t]);
    if m.threads[t].hand != NULL {
      InHand(m, t, m.threads[t].hand);
    }
  }

  lemma CancelFollows(m: Mutex, t: nat, turns: nat, c: nat)
    requires Inv(m) && t < |m.threads|
    ensures Follows(m, CancelStep(m, t, turns), c)
  {
    assert ThreadKnows(m, m.threads[t]);
    if m.threads[t].hand != NULL {
      InHand(m, t, m.threads[t].hand);
    }
    if m.threads[t].removed != NULL {
      InHand(m, t, m.threads[t].removed);
    }
  }

  lemma AccessFollows(m: Mutex, t: nat, weak: bool, turns: nat, c: nat)
    requires Inv(m) && t < |m.threads|
    ensures Follows(m, Access(m, t, weak, turns), c)
  {
    assert ThreadKnows(m, m.threads[t]);
    var pc := m.threads[t].pc;
    if AwaiterPc(pc) {
      AwaiterFollows(m, t, weak, c);
    } else if LockPc(pc) {
      LockFollows(m, t, weak, c);
    } else if UnlockPc(pc) {
      UnlockFollows(m, t, c);
    } else {
      CancelFollows(m, t, turns, c);
    }
  }

  lemma BeginFollows(m: Mutex, t: nat, call: Call, c: nat)
    requires Enabled(m, Begin(t, call))
    ensures Follows(m, Start(m, t, call), c)
  {
  }

  lemma MoveFollows(m: Mutex, mv: Move, c: nat)
    requires Inv(m)
    ensures Follows(m, Next(m, mv), c)
  {
    if Enabled(m, mv) {
      match mv
      case Doom(_) =>
      case Begin(t, call) => BeginFollows(m, t, call, c);
      case Step(t, weak, turns) => AccessFollows(m, t, weak, turns, c);
    }
  }

  /** In every run, every move takes every coroutine along its way. */
  lemma {:induction false} PhasesFollow(m: Mutex, moves: seq<Move>, mv: Move, c: nat)
    requires Initial(m)
    ensures Follows(Execute(m, moves).mutex, Next(Execute(m, moves).mutex, mv), c)
  {
    Reachable(m, moves);
    MoveFollows(Execute(m, moves).mutex, mv, c);
  }
}
