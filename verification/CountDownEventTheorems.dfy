/** What the count-down event promises, over every run of every number of threads. */
module CountDownEventTheorems {
  import opened Tally
  import opened CountDownEvent
  import opened CountDownEventProof

  /**
   A run so far: the calls of enqueue, the coroutines it refused, those
   scheduled by resumeWaiting or after a remove, and how often the count was
   raised and lowered.
   */
  datatype History = History(
    event: Event, asked: multiset<nat>, refused: multiset<nat>, scheduled: multiset<nat>, raised: nat, lowered: nat)

  function At(e: Event, m: Move): Thread {
    if m.Step? && Enabled(e, m) then e.threads[m.thread] else IDLE
  }

  function AskedBy(e: Event, m: Move): multiset<nat> {
    if m.Begin? && m.call.Enqueue? && Enabled(e, m) then multiset{m.call.c} else multiset{}
  }

  function RefusedBy(e: Event, m: Move): multiset<nat> {
    if At(e, m).pc.EnlistZero? && e.count == 0 then multiset{At(e, m).hand} else multiset{}
  }

  function ScheduledBy(e: Event, m: Move): multiset<nat> {
    if At(e, m).pc.WakeSchedule? then multiset{At(e, m).hand}
    else if At(e, m).pc.RemovedSchedule? then multiset{At(e, m).removed}
    else multiset{}
  }

  function Raises(e: Event, m: Move): nat {
    if At(e, m).pc.UpCas? && e.count == At(e, m).prev && !m.weak then 1 else 0
  }

  function Lowers(e: Event, m: Move): nat {
    if At(e, m).pc.DownCas? && e.count == At(e, m).prev && !m.weak then 1 else 0
  }

  function Advance(h: History, m: Move): History {
    History(Next(h.event, m), h.asked + AskedBy(h.event, m), h.refused + RefusedBy(h.event, m),
            h.scheduled + ScheduledBy(h.event, m), h.raised + Raises(h.event, m), h.lowered + Lowers(h.event, m))
  }

  function Execute(e: Event, moves: seq<Move>): History {
    if moves == [] then History(e, multiset{}, multiset{}, multiset{}, 0, 0)
    else Advance(Execute(e, moves[..|moves| - 1]), moves[|moves| - 1])
  }

  lemma {:induction false} Reachable(e: Event, moves: seq<Move>)
    requires Initial(e)
    ensures Inv(Execute(e, moves).event)
  {
    if moves == [] {
      InitialInv(e);
    } else {
      Reachable(e, moves[..|moves| - 1]);
      Preserved(Execute(e, moves[..|moves| - 1]).event, moves[|moves| - 1]);
    }
  }

  // ---------------------------------------------------------------------
  // No lost wake-up
  // ---------------------------------------------------------------------

  /** Inside countUp, or in no call at all: the calls that owe nothing to waiters. */
  predicate OutsideWaiting(pc: Pc) {
    pc.Idle? || pc.UpLoad? || pc.UpCas?
  }

  ghost predicate NobodyInside(e: Event) {
    forall t :: 0 <= t < |e.threads| ==> OutsideWaiting(e.threads[t].pc)
  }

  /** What a user relies on when no thread is inside countDown, enqueue, resumeWaiting or remove. */
  ghost predicate Settled(e: Event) {
    && (e.count == 0 ==> e.wait == [] && e.custody == {})
    && (forall c: nat :: c in e.custody <==> c in e.wait)
    && (forall i, j :: 0 <= i < j < |e.wait| ==> e.wait[i] != e.wait[j])
  }

  lemma NobodyRepairs(e: Event)
    requires Inv(e) && NobodyInside(e)
    ensures Settled(e)
  {
    EmptyHands(e);
    forall c: nat
      ensures c in e.custody <==> c in e.wait
    {
      assert Copies(e, c) == One(c in e.custody);
      assert c in e.wait <==> c in multiset(e.wait);
    }
    QueuedOnce(e);
    assert e.count == 0 ==> e.wait == [];
    if e.wait == [] {
      assert forall c: nat :: c !in e.custody;
    }
  }

  lemma EmptyHands(e: Event)
    requires AllKnow(e) && NobodyInside(e)
    ensures Gather(e.threads, Hand) == multiset{}
  {
    forall t | 0 <= t < |e.threads|
      ensures Hand(e.threads[t]) == multiset{}
    {
      assert ThreadKnows(e, e.threads[t]);
    }
    GatherNothing(e.threads, Hand);
  }

  lemma QueuedOnce(e: Event)
    requires Located(e)
    ensures forall i, j :: 0 <= i < j < |e.wait| ==> e.wait[i] != e.wait[j]
  {
    forall i, j | 0 <= i < j < |e.wait|
      ensures e.wait[i] != e.wait[j]
    {
      assert Copies(e, e.wait[i]) <= 1;
      if e.wait[i] == e.wait[j] {
        TwiceIn(e.wait, i, j);
      }
    }
  }

  lemma TwiceIn(q: seq<nat>, i: nat, j: nat)
    requires i < j < |q| && q[i] == q[j]
    ensures multiset(q)[q[i]] >= 2
  {
    assert q == q[..i] + [q[i]] + q[i + 1..j] + [q[j]] + q[j + 1..];
  }

  /**
   No wake-up is lost: with nobody inside, a zero count leaves nobody waiting,
   and custody is exactly the wait queue.
   */
  lemma {:induction false} NoLostWakeUp(e: Event, moves: seq<Move>)
    requires Initial(e) && NobodyInside(Execute(e, moves).event)
    ensures Settled(Execute(e, moves).event)
  {
    Reachable(e, moves);
    NobodyRepairs(Execute(e, moves).event);
  }

  // ---------------------------------------------------------------------
  // The count
  // ---------------------------------------------------------------------

  lemma CountStep(e: Event, m: Move)
    ensures Next(e, m).count == e.count + Raises(e, m) - Lowers(e, m) && Next(e, m).max == e.max
  {
  }

  /** The count stays within its bounds and is what the successful exchanges made it. */
  lemma {:induction false} CountExact(e: Event, moves: seq<Move>)
    requires Initial(e)
    ensures var h := Execute(e, moves);
            0 <= h.event.count <= e.max && h.event.max == e.max && h.event.count == e.count + h.raised - h.lowered
  {
    Reachable(e, moves);
    if moves != [] {
      CountExact(e, moves[..|moves| - 1]);
      CountStep(Execute(e, moves[..|moves| - 1]).event, moves[|moves| - 1]);
    }
  }

  // ---------------------------------------------------------------------
  // Each call of countDown and of countUp
  // ---------------------------------------------------------------------

  /**
   The calls one thread has made so far: how many of countDown and how many of
   countUp, the exchanges it has made, and how often it has read the count at
   the bound that ends the call.
   */
  datatype Calls = Calls(event: Event, downs: nat, lowered: nat, zeros: nat, ups: nat, raised: nat, tops: nat)

  predicate Moves(e: Event, m: Move, t: nat) {
    m.Step? && m.thread == t && Enabled(e, m)
  }

  predicate Opens(e: Event, m: Move, t: nat, call: Call) {
    m == Begin(t, call) && Enabled(e, m)
  }

  /** A load, or an exchange that fails, tells the thread the count. */
  predicate Reads(e: Event, m: Move, load: Pc, exchange: Pc) {
    var th := At(e, m);
    th.pc == load || (th.pc == exchange && m.Step? && !(e.count == th.prev && !m.weak))
  }

  function Charge(a: Calls, m: Move, t: nat): Calls {
    var e := a.event;
    Calls(Next(e, m),
          a.downs + if Opens(e, m, t, CountDown) then 1 else 0,
          a.lowered + if Moves(e, m, t) then Lowers(e, m) else 0,
          a.zeros + if Moves(e, m, t) && Reads(e, m, DownLoad, DownCas) && e.count == 0 then 1 else 0,
          a.ups + if Opens(e, m, t, CountUp) then 1 else 0,
          a.raised + if Moves(e, m, t) then Raises(e, m) else 0,
          a.tops + if Moves(e, m, t) && Reads(e, m, UpLoad, UpCas) && e.count == e.max then 1 else 0)
  }

  function CallsOf(e: Event, moves: seq<Move>, t: nat): Calls {
    if moves == [] then Calls(e, 0, 0, 0, 0, 0, 0)
    else Charge(CallsOf(e, moves[..|moves| - 1], t), moves[|moves| - 1], t)
  }

  /**
   Each call that has returned lowered the count once or found it zero, or raised
   it once or found it at its maximum.
   */
  ghost predicate Paid(a: Calls, t: nat) {
    && t < |a.event.threads|
    && var pc := a.event.threads[t].pc;
       && a.downs == a.lowered + a.zeros + One(pc.DownLoad? || pc.DownCas?)
       && a.ups == a.raised + a.tops + One(pc.UpLoad? || pc.UpCas?)
  }

  lemma PaidStep(a: Calls, m: Move, t: nat)
    requires Paid(a, t)
    ensures Paid(Charge(a, m, t), t)
  {
    if Enabled(a.event, m) && m.Step? && m.thread == t {
      PaidAccess(a, m, t);
    }
  }

  lemma PaidAccess(a: Calls, m: Move, t: nat)
    requires Paid(a, t) && Moves(a.event, m, t)
    ensures Paid(Charge(a, m, t), t)
  {
    assert Next(a.event, m).threads[t].pc == Access(a.event, t, m.weak, m.turns).threads[t].pc;
  }

  /**
   In every run, each countDown that a thread has returned from made exactly
   one lowering exchange or read a zero count, and each countUp exactly one
   raising exchange or read the maximum.
   */
  lemma {:induction false} CallsPaid(e: Event, moves: seq<Move>, t: nat)
    requires Initial(e) && t < |e.threads|
    ensures Paid(CallsOf(e, moves, t), t)
    ensures CallsOf(e, moves, t).event == Execute(e, moves).event
  {
    if moves != [] {
      CallsPaid(e, moves[..|moves| - 1], t);
      PaidStep(CallsOf(e, moves[..|moves| - 1], t), moves[|moves| - 1], t);
    }
  }

  // ---------------------------------------------------------------------
  // Each coroutine at most once, and only at zero
  // ---------------------------------------------------------------------

  ghost predicate Accounted(h: History, c: nat) {
    h.asked[c] == h.refused[c] + h.scheduled[c] + One(c in h.event.custody)
  }

  lemma CustodyStep(e: Event, m: Move, c: nat)
    requires Inv(e)
    ensures AskedBy(e, m)[c] + One(c in e.custody) ==
            RefusedBy(e, m)[c] + ScheduledBy(e, m)[c] + One(c in Next(e, m).custody)
  {
    if m.Step? && Enabled(e, m) {
      var th := e.threads[m.thread];
      assert ThreadKnows(e, th);
      if th.hand != NULL {
        InCustody(e, m.thread, th.hand);
      }
      if th.removed != NULL {
        InCustody(e, m.thread, th.removed);
      }
      CustodyAccess(e, m);
    }
  }

  /** Only a refusal or a schedule ends a custody. */
  lemma CustodyAccess(e: Event, m: Move)
    requires m.Step? && Enabled(e, m)
    ensures var th := e.threads[m.thread];
            Next(e, m).custody ==
              if th.pc.WakeSchedule? || (th.pc.EnlistZero? && e.count == 0) then e.custody - {th.hand}
              else if th.pc.RemovedSchedule? then e.custody - {th.removed}
              else e.custody
  {
  }

  lemma AccountedStep(h: History, m: Move, c: nat)
    requires Inv(h.event) && Accounted(h, c)
    ensures Accounted(Advance(h, m), c)
  {
    CustodyStep(h.event, m, c);
  }

  /**
   Each call of enqueue is answered at most once, by a refusal or by one
   schedule; until then its coroutine is in one place.
   */
  lemma {:induction false} WaitersConserved(e: Event, moves: seq<Move>, c: nat)
    requires Initial(e)
    ensures Accounted(Execute(e, moves), c)
    ensures Copies(Execute(e, moves).event, c) == One(c in Execute(e, moves).event.custody)
  {
    Reachable(e, moves);
    if moves != [] {
      WaitersConserved(e, moves[..|moves| - 1], c);
      Reachable(e, moves[..|moves| - 1]);
      AccountedStep(Execute(e, moves[..|moves| - 1]), moves[|moves| - 1], c);
    }
  }

  /** resumeWaiting comes to schedule a coroutine only by reading a zero count while holding it. */
  lemma ReadsZero(e: Event, m: Move, t: nat)
    requires t < |e.threads| == |Next(e, m).threads|
    requires Next(e, m).threads[t].pc.WakeSchedule? && !e.threads[t].pc.WakeSchedule?
    ensures e.count == 0 && e.threads[t].pc.WakeCheck? && Next(e, m).threads[t].hand == e.threads[t].hand
    ensures m.Step? && m.thread == t
  {
  }

  /** Between that read and the schedule nothing takes the coroutine out of the thread's hand. */
  lemma HoldsUntilScheduled(e: Event, m: Move, t: nat)
    requires t < |e.threads| == |Next(e, m).threads| && e.threads[t].pc.WakeSchedule?
    ensures Next(e, m).threads[t] == e.threads[t] || e.threads[t].hand in ScheduledBy(e, m)
    ensures Next(e, m).threads[t].pc.WakeSchedule? ==> Next(e, m).threads[t] == e.threads[t]
  {
  }

  lemma SameThreads(e: Event, m: Move)
    ensures |Next(e, m).threads| == |e.threads|
  {
  }

  /** Thread `t` is about to look at a count that is zero, with coroutine `c` in hand. */
  predicate SeesZero(e: Event, t: nat, c: nat) {
    e.count == 0 && t < |e.threads| && e.threads[t].pc.WakeCheck? && e.threads[t].hand == c
  }

  /** Thread `t` is about to schedule coroutine `c`. */
  predicate WillSchedule(e: Event, t: nat, c: nat) {
    t < |e.threads| && e.threads[t].pc.WakeSchedule? && e.threads[t].hand == c
  }

  /** The event after the first `k` moves of a run. */
  function StateAt(e: Event, moves: seq<Move>, k: nat): Event
    requires k <= |moves|
  {
    Execute(e, moves[..k]).event
  }

  /**
   In a run, thread `t` read a zero count at move `i` with coroutine `c` in hand,
   and has been about to schedule it ever since.
   */
  ghost predicate ReadZeroAt(e: Event, moves: seq<Move>, i: nat, t: nat, c: nat) {
    && i < |moves| && moves[i].Step? && moves[i].thread == t
    && SeesZero(StateAt(e, moves, i), t, c)
    && forall k {:trigger StateAt(e, moves, k)} :: i < k <= |moves| ==> WillSchedule(StateAt(e, moves, k), t, c)
  }

  lemma OneStep(e: Event, m: Move, t: nat, c: nat)
    requires WillSchedule(Next(e, m), t, c) && |Next(e, m).threads| == |e.threads|
    ensures WillSchedule(e, t, c) || (SeesZero(e, t, c) && m.Step? && m.thread == t)
  {
    if e.threads[t].pc.WakeSchedule? {
      HoldsUntilScheduled(e, m, t);
    } else {
      ReadsZero(e, m, t);
    }
  }

  lemma SameState(e: Event, moves: seq<Move>, m: Move, k: nat)
    requires k <= |moves|
    ensures StateAt(e, moves + [m], k) == StateAt(e, moves, k)
  {
    assert (moves + [m])[..k] == moves[..k];
  }

  lemma LastState(e: Event, moves: seq<Move>, m: Move)
    ensures StateAt(e, moves + [m], |moves| + 1) == Execute(e, moves + [m]).event == Next(Execute(e, moves).event, m)
    ensures StateAt(e, moves, |moves|) == Execute(e, moves).event
  {
    assert (moves + [m])[..|moves| + 1] == moves + [m] && (moves + [m])[..|moves|] == moves
        && moves[..|moves|] == moves;
  }

  lemma StillRead(e: Event, moves: seq<Move>, m: Move, i: nat, t: nat, c: nat)
    requires ReadZeroAt(e, moves, i, t, c) && WillSchedule(StateAt(e, moves + [m], |moves| + 1), t, c)
    ensures ReadZeroAt(e, moves + [m], i, t, c)
  {
    SameState(e, moves, m, i);
    var all := moves + [m];
    assert all[i] == moves[i];
    forall k {:trigger StateAt(e, all, k)} | i < k <= |all|
      ensures WillSchedule(StateAt(e, all, k), t, c)
    {
      if k <= |moves| {
        SameState(e, moves, m, k);
      }
    }
  }

  lemma JustRead(e: Event, moves: seq<Move>, m: Move, t: nat, c: nat)
    requires SeesZero(StateAt(e, moves, |moves|), t, c) && m.Step? && m.thread == t
    requires WillSchedule(StateAt(e, moves + [m], |moves| + 1), t, c)
    ensures ReadZeroAt(e, moves + [m], |moves|, t, c)
  {
    SameState(e, moves, m, |moves|);
    var all := moves + [m];
    forall k {:trigger StateAt(e, all, k)} | |moves| < k <= |all|
      ensures WillSchedule(StateAt(e, all, k), t, c)
    {
      assert k == |moves| + 1;
    }
  }

  lemma {:induction false} ZeroWasRead(e: Event, moves: seq<Move>, t: nat, c: nat) returns (i: nat)
    requires Initial(e) && moves != [] && WillSchedule(Execute(e, moves).event, t, c)
    ensures ReadZeroAt(e, moves, i, t, c)
  {
    var before, m := moves[..|moves| - 1], moves[|moves| - 1];
    assert moves == before + [m];
    LastState(e, before, m);
    SameThreads(Execute(e, before).event, m);
    OneStep(Execute(e, before).event, m, t, c);
    if WillSchedule(Execute(e, before).event, t, c) {
      NotAtOnce(e, before, t, c);
      i := ZeroWasRead(e, before, t, c);
      StillRead(e, before, m, i, t, c);
    } else {
      i := |before|;
      JustRead(e, before, m, t, c);
    }
  }

  lemma NotAtOnce(e: Event, moves: seq<Move>, t: nat, c: nat)
    requires Initial(e) && WillSchedule(Execute(e, moves).event, t, c)
    ensures moves != []
  {
  }

  /**
   Every schedule that resumeWaiting makes in any run goes back to a read of a
   zero count, by the same thread, with the coroutine in its hand from then on.
   */
  lemma {:induction false} SchedulesAtZero(e: Event, moves: seq<Move>, m: Move) returns (i: nat)
    requires Initial(e) && Enabled(Execute(e, moves).event, m) && At(Execute(e, moves).event, m).pc.WakeSchedule?
    ensures ReadZeroAt(e, moves, i, m.thread, At(Execute(e, moves).event, m).hand)
    ensures ScheduledBy(Execute(e, moves).event, m) == multiset{At(Execute(e, moves).event, m).hand}
  {
    NotAtOnce(e, moves, m.thread, At(Execute(e, moves).event, m).hand);
    i := ZeroWasRead(e, moves, m.thread, At(Execute(e, moves).event, m).hand);
  }
}
