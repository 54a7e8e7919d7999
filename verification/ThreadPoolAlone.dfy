/** What a worker and a caller of the pool do when they move alone, whatever the others are in the middle of. */
module ThreadPoolAlone {
  import opened Tally
  import opened Undisturbed
  import opened ThreadPool
  import opened ThreadPoolProof

  // ---------------------------------------------------------------------
  // wakeOneThread and processPendingWakeUps, whoever calls them
  // ---------------------------------------------------------------------

  /** The pool, and the call whose thread moves alone. */
  datatype Lone = Lone(pool: Pool, call: Call)

  /** Alone, no exchange fails; `held` are the workers whose event mutex somebody holds. */
  function Luck(c: Call, held: set<nat>): bool {
    c.pc.LoopSet? ==> c.i !in held
  }

  function Forward(x: Lone, kind: Kind, held: set<nat>): Lone {
    match CallNext(x.pool, kind, x.call, Luck(x.call, held))
    case None => x.(pool := x.pool.(failed := true))
    case Some(c) => Lone(CallEffect(x.pool, x.call, Luck(x.call, held)), c)
  }

  function Mover(kind: Kind, held: set<nat>): Lone -> Lone {
    (x: Lone) => Forward(x, kind, held)
  }

  function Alone(x: Lone, kind: Kind, held: set<nat>, n: nat): Lone {
    After(Mover(kind, held), x, n)
  }

  lemma AloneMore(x: Lone, kind: Kind, held: set<nat>, a: nat, b: nat)
    ensures Alone(x, kind, held, a + b) == Alone(Alone(x, kind, held, a), kind, held, b)
  {
    AfterMore(Mover(kind, held), x, a, b);
  }

  lemma OneMore(x: Lone, kind: Kind, held: set<nat>)
    ensures Alone(x, kind, held, 1) == Forward(x, kind, held)
    ensures Alone(x, kind, held, 2) == Forward(Forward(x, kind, held), kind, held)
    ensures Alone(x, kind, held, 3) == Forward(Forward(Forward(x, kind, held), kind, held), kind, held)
  {
    AfterFew(Mover(kind, held), x);
  }

  /** A worker that the loop wakes when it comes to it. */
  predicate Wakeable(p: Pool, i: nat, immediate: bool, held: set<nat>)
    requires i < Size(p)
  {
    p.workers[i].asleep && (immediate || i !in held)
  }

  /** The first worker, from the `i`th on, that the loop wakes; the number of workers if there is none. */
  function FirstFrom(p: Pool, i: nat, immediate: bool, held: set<nat>): (j: nat)
    requires i <= Size(p)
    ensures i <= j <= Size(p)
    ensures forall u :: i <= u < j ==> !Wakeable(p, u, immediate, held)
    ensures j < Size(p) ==> Wakeable(p, j, immediate, held)
    decreases Size(p) - i
  {
    if i == Size(p) || Wakeable(p, i, immediate, held) then i else FirstFrom(p, i + 1, immediate, held)
  }

  /** What the loop makes of the pool. */
  function LoopResult(p: Pool, i: nat, immediate: bool, held: set<nat>): Lone
    requires i <= Size(p)
  {
    var j := FirstFrom(p, i, immediate, held);
    if j < Size(p) then Lone(SetEvent(p, j), RETURNED)
    else Lone(p, if immediate then RETURNED else Call(Missed, 0, false, 0))
  }

  /** One turn of the loop. */
  lemma TurnAlone(p: Pool, kind: Kind, held: set<nat>, i: nat, immediate: bool) returns (n: nat)
    requires p.mayBe != 0 && i < Size(p)
    ensures Alone(Lone(p, Call(LoopCount, i, immediate, 0)), kind, held, n) ==
              if Wakeable(p, i, immediate, held) then Lone(SetEvent(p, i), RETURNED)
              else Lone(p, NextTurn(p, Call(LoopCount, i, immediate, 0)))
  {
    var x := Lone(p, Call(LoopCount, i, immediate, 0));
    OneMore(x, kind, held);
    assert Forward(x, kind, held) == Lone(p, Call(LoopFlag, i, immediate, 0));
    if p.workers[i].asleep {
      n := 3;
      assert Forward(Lone(p, Call(LoopFlag, i, immediate, 0)), kind, held) == Lone(p, Call(LoopSet, i, immediate, 0));
    } else {
      n := 2;
    }
  }

  /** The loop sets the event of the first worker that it can wake, and of nobody else. */
  lemma {:induction false} LoopAlone(p: Pool, kind: Kind, held: set<nat>, i: nat, immediate: bool) returns (n: nat)
    requires p.mayBe != 0 && i < Size(p)
    ensures Alone(Lone(p, Call(LoopCount, i, immediate, 0)), kind, held, n) == LoopResult(p, i, immediate, held)
    decreases Size(p) - i
  {
    n := TurnAlone(p, kind, held, i, immediate);
    if !Wakeable(p, i, immediate, held) && i + 1 < Size(p) {
      var more := LoopAlone(p, kind, held, i + 1, immediate);
      AloneMore(Lone(p, Call(LoopCount, i, immediate, 0)), kind, held, n, more);
      n := n + more;
    }
  }

  /** A call that wakes nobody leaves a request, as long as there are fewer requests than workers that may sleep. */
  lemma PendAlone(p: Pool, kind: Kind, held: set<nat>) returns (n: nat)
    requires 0 <= p.pending <= Size(p)
    ensures Alone(Lone(p, Call(PendLoad, 0, false, 0)), kind, held, n) ==
              Lone(p.(pending := if p.pending < p.mayBe then p.pending + 1 else p.pending), RETURNED)
  {
    var x := Lone(p, Call(PendLoad, 0, false, 0));
    OneMore(x, kind, held);
    assert Forward(x, kind, held) == Lone(p, Call(PendTest, 0, false, p.pending));
    if p.pending < p.mayBe {
      n := 3;
      assert Forward(Lone(p, Call(PendTest, 0, false, p.pending)), kind, held)
          == Lone(p, Call(PendCas, 0, false, p.pending));
    } else {
      n := 2;
    }
  }

  lemma MissedAlone(p: Pool, kind: Kind, held: set<nat>) returns (n: nat)
    requires 0 <= p.pending <= Size(p) && p.mayBe != 0 && !Immediate(p, kind)
    ensures Alone(Lone(p, Call(Missed, 0, false, 0)), kind, held, n) ==
              Lone(p.(pending := if p.pending < p.mayBe then p.pending + 1 else p.pending), RETURNED)
  {
    var x := Lone(p, Call(Missed, 0, false, 0));
    OneMore(x, kind, held);
    var first := if kind.Own? || kind.Unpooled? then 1 else 2;
    if first == 2 {
      assert Forward(x, kind, held) == Lone(p, Call(OfferCount, 0, false, 0));
    }
    n := PendAlone(p, kind, held);
    AloneMore(x, kind, held, first, n);
    n := n + first;
  }

  /**
   Somebody who has no local work to go back to, and somebody from elsewhere who
   finds that all workers may sleep, waits for an event mutex if it must.
   */
  predicate Insists(p: Pool, kind: Kind) {
    var pooled, noLocal := !kind.Unpooled?, if kind.Own? then p.noLocal else kind.OtherGlobal?;
    !pooled || noLocal || (!kind.Own? && p.mayBe == |p.workers|)
  }

  /** What wakeOneThread makes of the pool. */
  function WakeOutcome(p: Pool, kind: Kind, held: set<nat>): Pool {
    var j := FirstFrom(p, 0, Insists(p, kind), held);
    if p.mayBe == 0 then p
    else if j < |p.workers| then p.(workers := p.workers[j := p.workers[j].(event := true)])
    else if Insists(p, kind) || p.pending >= p.mayBe then p
    else p.(pending := p.pending + 1)
  }

  /** wakeOneThread, alone. */
  lemma WakeAlone(p: Pool, kind: Kind, held: set<nat>) returns (n: nat)
    requires |p.workers| >= 1 && 0 <= p.pending <= Size(p)
    ensures Alone(Lone(p, Call(Decide, 0, false, 0)), kind, held, n) == Lone(WakeOutcome(p, kind, held), RETURNED)
  {
    var x := Lone(p, Call(Decide, 0, false, 0));
    var immediate := Immediate(p, kind);
    var loop := Lone(p, Call(LoopCount, 0, immediate, 0));
    OneMore(x, kind, held);
    assert Forward(x, kind, held) == loop;
    if p.mayBe == 0 {
      n := 2;
    } else {
      n := LoopAlone(p, kind, held, 0, immediate);
      if FirstFrom(p, 0, immediate, held) == Size(p) && !immediate {
        var more := MissedAlone(p, kind, held);
        AloneMore(loop, kind, held, n, more);
        n := n + more;
      }
      AloneMore(x, kind, held, 1, n);
      n := n + 1;
    }
  }

  /** What processPendingWakeUps makes of the pool. */
  function ProcessOutcome(p: Pool, kind: Kind, held: set<nat>): Pool {
    if p.pending == 0 then p else WakeOutcome(p.(pending := p.pending - 1), kind, held)
  }

  /** processPendingWakeUps, alone: one request becomes one attempt to wake somebody. */
  lemma ProcessAlone(p: Pool, kind: Kind, held: set<nat>) returns (n: nat)
    requires |p.workers| >= 1 && 0 <= p.pending <= Size(p)
    ensures Alone(Lone(p, Call(ProcessAssert, 0, false, 0)), kind, held, n) ==
              Lone(ProcessOutcome(p, kind, held), RETURNED)
  {
    var x := Lone(p, Call(ProcessAssert, 0, false, 0));
    OneMore(x, kind, held);
    assert Forward(x, kind, held) == Lone(p, Call(ProcessLoad, 0, false, 0));
    if p.pending == 0 {
      n := 2;
    } else {
      assert Forward(Lone(p, Call(ProcessLoad, 0, false, 0)), kind, held) ==
          Lone(p, Call(ProcessCas, 0, false, p.pending));
      n := WakeAlone(p.(pending := p.pending - 1), kind, held);
      AloneMore(x, kind, held, 3, n);
      n := n + 3;
    }
  }

  // ---------------------------------------------------------------------
  // A call from wherever it is
  // ---------------------------------------------------------------------

  ghost predicate Sound(x: Lone) {
    && |x.pool.workers| >= 1 && !x.pool.failed
    && CallFits(x.pool, x.call) && 0 <= x.pool.pending <= Size(x.pool) && x.pool.mayBe <= Size(x.pool)
  }

  /** Bounds the accesses that a call has left. */
  function Rank(x: Lone): int {
    var n, c := Size(x.pool), x.call;
    var exact := c.seen == x.pool.pending;
    match c.pc
    case Return => 0
    case LoopCount => 3 * (n - c.i) + if c.immediate then 0 else 3 * n + 9
    case LoopFlag => 3 * (n - c.i) - 1 + if c.immediate then 0 else 3 * n + 9
    case LoopSet => 3 * (n - c.i) - 2 + if c.immediate then 0 else 3 * n + 9
    case Missed => 3 * n + 8
    case OfferCount => 3 * n + 7
    case OfferPending => 3 * n + 6
    case PendLoad => 5
    case PendTest => if exact then 2 else 4
    case PendCas => if exact then 1 else 3
    case Decide => 6 * n + 10
    case ProcessCas => if exact then 6 * n + 11 else 6 * n + 12
    case ProcessLoad => 6 * n + 13
    case ProcessAssert => 6 * n + 14
  }

  lemma SoundOn(x: Lone, kind: Kind, held: set<nat>)
    requires Sound(x)
    ensures CallNext(x.pool, kind, x.call, Luck(x.call, held)).Some?
    ensures Sound(Forward(x, kind, held)) && |Forward(x, kind, held).pool.workers| == |x.pool.workers|
  {
    CallFitsOn(x.pool, kind, x.call, Luck(x.call, held));
    EffectWorker(x.pool, x.call, Luck(x.call, held), 0);
    EffectSize(x.pool, x.call, Luck(x.call, held), CallNext(x.pool, kind, x.call, Luck(x.call, held)).value);
  }

  predicate InLoop(c: Call) {
    c.pc.LoopCount? || c.pc.LoopFlag? || c.pc.LoopSet?
  }

  lemma LoopFalls(x: Lone, kind: Kind, held: set<nat>)
    requires Sound(x) && InLoop(x.call)
    ensures 0 <= Rank(Forward(x, kind, held)) < Rank(x)
  {
    var c := x.call;
    if c.pc.LoopSet? && (c.immediate || Luck(c, held)) {
      assert Forward(x, kind, held).call == RETURNED;
    } else if c.pc.LoopSet? {
      assert Forward(x, kind, held) == x.(call := NextTurn(x.pool, c));
    }
  }

  lemma PendFalls(x: Lone, kind: Kind, held: set<nat>)
    requires Sound(x)
    requires x.call.pc.PendLoad? || x.call.pc.PendTest? || x.call.pc.PendCas?
    ensures 0 <= Rank(Forward(x, kind, held)) < Rank(x)
  {
  }

  lemma ProcessFalls(x: Lone, kind: Kind, held: set<nat>)
    requires Sound(x) && (x.call.pc.ProcessAssert? || x.call.pc.ProcessLoad? || x.call.pc.ProcessCas?)
    ensures 0 <= Rank(Forward(x, kind, held)) < Rank(x)
  {
  }

  lemma OutsideFalls(x: Lone, kind: Kind, held: set<nat>)
    requires Sound(x)
    requires x.call.pc.Decide? || x.call.pc.Missed? || x.call.pc.OfferCount? || x.call.pc.OfferPending?
    ensures 0 <= Rank(Forward(x, kind, held)) < Rank(x)
  {
  }

  lemma RankFalls(x: Lone, kind: Kind, held: set<nat>)
    requires Sound(x) && !x.call.pc.Return?
    ensures 0 <= Rank(Forward(x, kind, held)) < Rank(x)
  {
    if InLoop(x.call) {
      LoopFalls(x, kind, held);
    } else if x.call.pc.PendLoad? || x.call.pc.PendTest? || x.call.pc.PendCas? {
      PendFalls(x, kind, held);
    } else if x.call.pc.ProcessAssert? || x.call.pc.ProcessLoad? || x.call.pc.ProcessCas? {
      ProcessFalls(x, kind, held);
    } else {
      OutsideFalls(x, kind, held);
    }
  }

  /** Wherever a call is, it returns when its thread moves alone. */
  lemma {:induction false} Returns(x: Lone, kind: Kind, held: set<nat>) returns (n: nat)
    requires Sound(x)
    ensures Alone(x, kind, held, n).call.pc.Return?
    decreases Rank(x)
  {
    if x.call.pc.Return? {
      n := 0;
    } else {
      SoundOn(x, kind, held);
      RankFalls(x, kind, held);
      n := Returns(Forward(x, kind, held), kind, held);
      AloneMore(x, kind, held, 1, n);
      OneMore(x, kind, held);
      n := n + 1;
    }
  }

  lemma {:induction false} SoundAlone(x: Lone, kind: Kind, held: set<nat>, n: nat)
    requires Sound(x)
    ensures Sound(Alone(x, kind, held, n)) && |Alone(x, kind, held, n).pool.workers| == |x.pool.workers|
    decreases n
  {
    if n > 0 {
      SoundOn(x, kind, held);
      SoundAlone(Forward(x, kind, held), kind, held, n - 1);
      AloneMore(x, kind, held, 1, n - 1);
      OneMore(x, kind, held);
    }
  }

  // ---------------------------------------------------------------------
  // A caller of the pool
  // ---------------------------------------------------------------------

  function CallerForward(p: Pool, o: nat, held: set<nat>): Pool {
    if o < |p.callers| then Next(p, CallerStep(o, Luck(p.callers[o].call, held))) else p
  }

  function CallerMover(o: nat, held: set<nat>): Pool -> Pool {
    (p: Pool) => CallerForward(p, o, held)
  }

  function CallerAlone(p: Pool, o: nat, held: set<nat>, n: nat): Pool {
    After(CallerMover(o, held), p, n)
  }

  /** The pool of `p` with what a call has made of it. */
  function ByCaller(p: Pool, o: nat, x: Lone): Pool
    requires o < |p.callers|
  {
    x.pool.(callers := p.callers[o := p.callers[o].(call := x.call)])
  }

  /** Callers are nothing to a call. */
  lemma CallerAgrees(p: Pool, o: nat, x: Lone, held: set<nat>)
    requires o < |p.callers| && !x.pool.failed && CallNext(x.pool, p.callers[o].kind, x.call, Luck(x.call, held)).Some?
    ensures CallerForward(ByCaller(p, o, x), o, held) == ByCaller(p, o, Forward(x, p.callers[o].kind, held))
  {
    var q := ByCaller(p, o, x);
    assert CallNext(q, p.callers[o].kind, x.call, Luck(x.call, held))
        == CallNext(x.pool, p.callers[o].kind, x.call, Luck(x.call, held));
    if x.call.pc.Return? {
      assert Forward(x, p.callers[o].kind, held) == x;
    }
  }

  lemma {:induction false} CallerRuns(p: Pool, o: nat, x: Lone, held: set<nat>, n: nat)
    requires o < |p.callers| && Sound(x)
    ensures CallerAlone(ByCaller(p, o, x), o, held, n) == ByCaller(p, o, Alone(x, p.callers[o].kind, held, n))
    decreases n
  {
    if n > 0 {
      var kind := p.callers[o].kind;
      SoundOn(x, kind, held);
      CallerAgrees(p, o, x, held);
      CallerRuns(p, o, Forward(x, kind, held), held, n - 1);
    }
  }

  /**
   A thread that schedules onto the pool and moves alone queues its coroutine
   and does what wakeOneThread does: it sets the event of the first worker it
   can wake, or leaves a request while there are fewer than sleepers.
   */
  lemma ScheduleAlone(p: Pool, o: nat, c: nat, held: set<nat>) returns (n: nat)
    requires Inv(p) && Enabled(p, Enqueue(o, c))
    ensures CallerAlone(Next(p, Enqueue(o, c)), o, held, n) ==
              WakeOutcome(p.(queue := p.queue + [c]), p.callers[o].kind, held)
              .(callers := p.callers[o := p.callers[o].(call := RETURNED)])
  {
    var q := p.(queue := p.queue + [c]);
    var x := Lone(q, Call(Decide, 0, false, 0));
    CountsBounded(p);
    n := WakeAlone(q, p.callers[o].kind, held);
    CallerRuns(p, o, x, held, n);
    assert Next(p, Enqueue(o, c)) == ByCaller(p, o, x);
  }

  // ---------------------------------------------------------------------
  // A worker inside a call
  // ---------------------------------------------------------------------

  /** The worker's own next access. */
  function WorkerForward(p: Pool, w: nat, held: set<nat>, victim: Option<nat>): Pool {
    if w >= Size(p) then p
    else if p.workers[w].call.pc.Return? then Next(p, WorkerStep(w, victim))
    else Next(p, WorkerCall(w, Luck(p.workers[w].call, held)))
  }

  function WorkerMover(w: nat, held: set<nat>, victim: Option<nat>): Pool -> Pool {
    (p: Pool) => WorkerForward(p, w, held, victim)
  }

  function WorkerAlone(p: Pool, w: nat, held: set<nat>, victim: Option<nat>, n: nat): Pool {
    After(WorkerMover(w, held, victim), p, n)
  }

  lemma WorkerMore(p: Pool, w: nat, held: set<nat>, victim: Option<nat>, a: nat, b: nat)
    ensures WorkerAlone(p, w, held, victim, a + b)
         == WorkerAlone(WorkerAlone(p, w, held, victim, a), w, held, victim, b)
  {
    AfterMore(WorkerMover(w, held, victim), p, a, b);
  }

  lemma WorkerOnce(p: Pool, w: nat, held: set<nat>, victim: Option<nat>)
    ensures WorkerAlone(p, w, held, victim, 1) == WorkerForward(p, w, held, victim)
  {
    AfterFew(WorkerMover(w, held, victim), p);
  }

  /** The pool with what the worker's call has made of it. */
  function ByWorker(w: nat, x: Lone): Pool
    requires w < Size(x.pool)
  {
    Put(x.pool, w, x.pool.workers[w].(call := x.call))
  }

  /** What is in the middle of a call is nothing to it. */
  lemma WorkerAgrees(w: nat, x: Lone, held: set<nat>, victim: Option<nat>)
    requires w < Size(x.pool) && !x.pool.failed && !x.call.pc.Return?
    requires CallNext(x.pool, Own, x.call, Luck(x.call, held)).Some?
    ensures Size(Forward(x, Own, held).pool) == Size(x.pool)
    ensures WorkerForward(ByWorker(w, x), w, held, victim) == ByWorker(w, Forward(x, Own, held))
  {
    var q := ByWorker(w, x);
    var luck := Luck(x.call, held);
    assert q.workers[w].call == x.call && Size(q) == Size(x.pool);
    assert forall i :: 0 <= i < Size(q) ==> q.workers[i].asleep == x.pool.workers[i].asleep;
    assert CallNext(q, Own, x.call, luck) == CallNext(x.pool, Own, x.call, luck);
    EffectAgrees(w, x, luck, CallNext(q, Own, x.call, luck).value);
  }

  lemma EffectAgrees(w: nat, x: Lone, luck: bool, c: Call)
    requires w < Size(x.pool)
    ensures var p', q' := CallEffect(x.pool, x.call, luck), CallEffect(ByWorker(w, x), x.call, luck);
            && Size(p') == Size(q') == Size(x.pool)
            && Put(q', w, q'.workers[w].(call := c)) == Put(p', w, p'.workers[w].(call := c))
  {
    if x.call.pc.LoopSet? && x.call.i < Size(x.pool) && (x.call.immediate || luck) {
      assert CallEffect(x.pool, x.call, luck) == SetEvent(x.pool, x.call.i);
      assert CallEffect(ByWorker(w, x), x.call, luck) == SetEvent(ByWorker(w, x), x.call.i);
      EventAgrees(x.pool, w, x.pool.workers[w].(call := x.call), x.call.i, c);
    } else {
      OtherEffect(w, x, luck);
      PutAgain(CallEffect(x.pool, x.call, luck), w, x.pool.workers[w].(call := x.call), c);
    }
  }

  lemma OtherEffect(w: nat, x: Lone, luck: bool)
    requires w < Size(x.pool) && !(x.call.pc.LoopSet? && x.call.i < Size(x.pool) && (x.call.immediate || luck))
    ensures CallEffect(x.pool, x.call, luck).workers == x.pool.workers
    ensures CallEffect(ByWorker(w, x), x.call, luck)
         == Put(CallEffect(x.pool, x.call, luck), w, x.pool.workers[w].(call := x.call))
  {
  }

  lemma PutAgain(p: Pool, w: nat, k: Worker, c: Call)
    requires w < Size(p) && k == p.workers[w].(call := k.call)
    ensures var q := Put(p, w, k);
            Put(q, w, q.workers[w].(call := c)) == Put(p, w, p.workers[w].(call := c))
  {
    assert p.workers[w := k][w := k.(call := c)] == p.workers[w := k.(call := c)];
  }

  lemma EventAgrees(p: Pool, w: nat, k: Worker, i: nat, c: Call)
    requires w < Size(p) && i < Size(p) && k == p.workers[w].(call := k.call)
    ensures var p', q' := SetEvent(p, i), SetEvent(Put(p, w, k), i);
            Put(q', w, q'.workers[w].(call := c)) == Put(p', w, p'.workers[w].(call := c))
  {
    var p', q' := SetEvent(p, i), SetEvent(Put(p, w, k), i);
    assert q'.workers[w].(call := c) == p'.workers[w].(call := c);
    assert q'.workers[w := q'.workers[w].(call := c)] == p'.workers[w := p'.workers[w].(call := c)];
  }
}
