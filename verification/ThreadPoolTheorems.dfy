/** What the pool promises, over every run of any number of workers and callers. */
module ThreadPoolTheorems {
  import opened Tally
  import opened ThreadPool
  import opened ThreadPoolProof

  function Execute(p: Pool, moves: seq<Move>): Pool {
    if moves == [] then p else Next(Execute(p, moves[..|moves| - 1]), moves[|moves| - 1])
  }

  lemma {:induction false} Reachable(p: Pool, moves: seq<Move>)
    requires Initial(p)
    ensures Inv(Execute(p, moves)) && Size(Execute(p, moves)) == Size(p)
  {
    if moves == [] {
      InitialInv(p);
    } else {
      Reachable(p, moves[..|moves| - 1]);
      Preserved(Execute(p, moves[..|moves| - 1]), moves[|moves| - 1]);
    }
  }

  // ---------------------------------------------------------------------
  // No stranded work
  // ---------------------------------------------------------------------

  /** No caller is between its enqueue and the end of wakeOneThread. */
  ghost predicate NobodySchedules(p: Pool) {
    forall o :: 0 <= o < |p.callers| ==> p.callers[o].call.pc.Return?
  }

  /**
   Work in the global queue is never stranded: with no caller between its
   enqueue and the end of wakeOneThread, a worker is still going to look at the
   queue, or the wake-up event of one is set.
   */
  lemma {:induction false} NoStrandedWork(p: Pool, moves: seq<Move>)
    requires Initial(p) && NobodySchedules(Execute(p, moves)) && Execute(p, moves).queue != []
    ensures exists w :: 0 <= w < Size(Execute(p, moves))
                        && (!Committed(Execute(p, moves).workers[w]) || Execute(p, moves).workers[w].event)
  {
    Reachable(p, moves);
    assert !SomebodyWakes(Execute(p, moves));
  }

  /** Steps left until a caller that is about to wake the first worker has set its event. */
  function StepsLeft(c: Call): nat {
    match c.pc
    case Decide => 4
    case LoopCount => 3
    case LoopFlag => 2
    case _ => 1
  }

  lemma OneStepNearer(p: Pool, o: nat, luck: bool)
    requires Inv(p) && !p.failed && Stranded(p) && o < |p.callers| && AboutToWake(p.callers[o].call)
    ensures var p' := Next(p, CallerStep(o, luck));
            if p.callers[o].call.pc.LoopSet? then !Stranded(p')
            else |p'.callers| == |p.callers| && AboutToWake(p'.callers[o].call)
                 && StepsLeft(p'.callers[o].call) == StepsLeft(p.callers[o].call) - 1
  {
    var c := p.callers[o].call;
    assert CallFits(p, c);
    GoesOn(p, p.callers[o].kind, c, luck);
    if c.pc.LoopSet? {
      NotStranded(p, 0);
      assert Next(p, CallerStep(o, luck)).workers == SetEvent(p, 0).workers;
    } else {
      Nearer(p, p.callers[o].kind, c, luck);
    }
  }

  lemma Nearer(p: Pool, kind: Kind, c: Call, luck: bool)
    requires Inv(p) && Stranded(p) && !kind.Own? && CallFits(p, c) && AboutToWake(c) && !c.pc.LoopSet?
    ensures CallNext(p, kind, c, luck).Some? && StepsLeft(CallNext(p, kind, c, luck).value) == StepsLeft(c) - 1
  {
    AllCounted(p);
    assert Committed(p.workers[0]);
  }

  /** Nobody else touches a caller. */
  lemma CallerStays(p: Pool, m: Move, o: nat)
    requires o < |p.callers| && !p.callers[o].call.pc.Return? && !(m.CallerStep? && m.o == o)
    ensures |Next(p, m).callers| == |p.callers| && Next(p, m).callers[o] == p.callers[o]
  {
    if m.WorkerStep? && Enabled(p, m) {
      assert Access(p, m.w, m.victim).callers == p.callers;
    }
  }

  /** The work stays stranded through all of the moves. */
  ghost predicate StrandedThroughout(p: Pool, moves: seq<Move>)
    decreases |moves|
  {
    Stranded(p) && (moves == [] || StrandedThroughout(Next(p, moves[0]), moves[1..]))
  }

  function StepsBy(moves: seq<Move>, o: nat): nat {
    if moves == [] then 0 else (if moves[0].CallerStep? && moves[0].o == o then 1 else 0) + StepsBy(moves[1..], o)
  }

  lemma {:induction false} EndsBefore(p: Pool, o: nat, moves: seq<Move>)
    requires Inv(p) && !p.failed && o < |p.callers| && AboutToWake(p.callers[o].call) && StrandedThroughout(p, moves)
    ensures StepsBy(moves, o) < StepsLeft(p.callers[o].call) <= 4
    decreases |moves|
  {
    if moves != [] {
      var m := moves[0];
      assert Stranded(Next(p, m));
      Preserved(p, m);
      if m.CallerStep? && m.o == o {
        OneStepNearer(p, o, m.luck);
      } else {
        CallerStays(p, m, o);
      }
      EndsBefore(Next(p, m), o, moves[1..]);
    }
  }

  /**
   In every reachable state with stranded work there is a caller such that, under
   any schedule of all threads, the work is stranded no longer once the caller
   has made its next four accesses.
   */
  lemma {:induction false} SomebodyWillWake(p: Pool, moves: seq<Move>) returns (o: nat)
    requires Initial(p) && !Execute(p, moves).failed && Stranded(Execute(p, moves))
    ensures o < |Execute(p, moves).callers|
    ensures forall later {:trigger StepsBy(later, o)} :: StrandedThroughout(Execute(p, moves), later) ==>
            StepsBy(later, o) < 4
  {
    Reachable(p, moves);
    var now := Execute(p, moves);
    o :| 0 <= o < |now.callers| && AboutToWake(now.callers[o].call);
    forall later {:trigger StepsBy(later, o)} | StrandedThroughout(now, later)
      ensures StepsBy(later, o) < 4
    {
      EndsBefore(now, o, later);
    }
  }

  /** Only an enqueue can strand work, and its caller is then about to wake a worker. */
  lemma {:induction false} OnlyEnqueueStrands(p: Pool, moves: seq<Move>, m: Move)
    requires Initial(p)
    requires !Stranded(Execute(p, moves)) && Stranded(Next(Execute(p, moves), m))
    ensures m.Enqueue? && m.o < |Next(Execute(p, moves), m).callers|
    ensures AboutToWake(Next(Execute(p, moves), m).callers[m.o].call)
  {
    Reachable(p, moves);
    Preserved(Execute(p, moves), m);
  }

  // ---------------------------------------------------------------------
  // The counters
  // ---------------------------------------------------------------------

  /** Both counters are exact, and the pending requests never exceed the workers. */
  ghost predicate CountersExact(p: Pool) {
    && p.mayBe == Total(p.workers, Counted()) && 0 <= p.mayBe <= Size(p)
    && p.sleeping == Total(p.workers, Sleeping()) && 0 <= p.sleeping <= Size(p)
    && 0 <= p.pending <= Size(p)
  }

  /** No assertion of the pool fails in any run. */
  lemma {:induction false} AssertionsHold(p: Pool, moves: seq<Move>)
    requires Initial(p)
    ensures !Execute(p, moves).failed && CountersExact(Execute(p, moves))
  {
    Reachable(p, moves);
    CountsBounded(Execute(p, moves));
    if moves != [] {
      AssertionsHold(p, moves[..|moves| - 1]);
      Reachable(p, moves[..|moves| - 1]);
      Preserved(Execute(p, moves[..|moves| - 1]), moves[|moves| - 1]);
    }
  }

  // ---------------------------------------------------------------------
  // The end of a call
  // ---------------------------------------------------------------------

  /** The call, in pool `p`, sets the event of the worker that it has seen asleep. */
  ghost predicate SetsEvent(p: Pool, p': Pool, c: Call) {
    && c.pc.LoopSet? && c.i < |p.workers| == |p'.workers|
    && p'.workers[c.i].event
  }

  /** The call has tried the last worker, and would have waited for its event mutex. */
  predicate TriedAll(p: Pool, c: Call) {
    (c.pc.LoopFlag? || c.pc.LoopSet?) && c.immediate && c.i + 1 == |p.workers|
  }

  /**
   What excuses a call that returns: it has set an event, found nobody who may
   sleep, tried everybody, left a request or found enough of them; or there was
   no request to process.
   */
  ghost predicate Excused(p: Pool, p': Pool, c: Call) {
    || SetsEvent(p, p', c)
    || TriedAll(p, c)
    || (p.mayBe == 0 && (c.pc.LoopCount? || c.pc.Missed?))
    || (p'.pending == p.pending + 1 && c.pc.PendCas?)
    || (c.seen >= p.mayBe && c.pc.PendTest?)
    || (p.pending == 0 && (c.pc.ProcessLoad? || c.pc.ProcessCas?))
  }

  lemma ReturnsExcused(p: Pool, kind: Kind, c: Call, luck: bool)
    requires CallFits(p, c) && !c.pc.Return? && Size(p) >= 1 && 0 <= p.pending
    requires CallNext(p, kind, c, luck) == Some(RETURNED)
    ensures Excused(p, CallEffect(p, c, luck), c)
  {
  }

  lemma ReturnedCall(p: Pool, kind: Kind, c: Call, luck: bool)
    requires CallFits(p, c) && Size(p) >= 1 && 0 <= p.pending <= Size(p) && p.mayBe <= Size(p)
    requires CallNext(p, kind, c, luck).Some? && CallNext(p, kind, c, luck).value.pc.Return?
    ensures CallNext(p, kind, c, luck) == Some(RETURNED)
  {
    CallFitsOn(p, kind, c, luck);
  }

  /** In every run, a call that a thread outside returns from is excused. */
  lemma {:induction false} CallersReturnExcused(p: Pool, moves: seq<Move>, o: nat, luck: bool)
    requires Initial(p) && Enabled(Execute(p, moves), CallerStep(o, luck))
    requires var p' := Next(Execute(p, moves), CallerStep(o, luck));
             o < |p'.callers| && !p'.failed && p'.callers[o].call.pc.Return?
    ensures Excused(Execute(p, moves), Next(Execute(p, moves), CallerStep(o, luck)), Execute(p, moves).callers[o].call)
  {
    Reachable(p, moves);
    var now := Execute(p, moves);
    var kind, c := now.callers[o].kind, now.callers[o].call;
    assert CallFits(now, c);
    CountsBounded(now);
    CallFitsOn(now, kind, c, luck);
    CallerAccess(now, o, luck, CallNext(now, kind, c, luck).value);
    ReturnedCall(now, kind, c, luck);
    ReturnsExcused(now, kind, c, luck);
  }

  /** The same of a worker's own calls. */
  lemma {:induction false} WorkersReturnExcused(p: Pool, moves: seq<Move>, w: nat, luck: bool)
    requires Initial(p) && Enabled(Execute(p, moves), WorkerCall(w, luck))
    requires var p' := Next(Execute(p, moves), WorkerCall(w, luck));
             w < |p'.workers| && !p'.failed && p'.workers[w].call.pc.Return?
    ensures Excused(Execute(p, moves), Next(Execute(p, moves), WorkerCall(w, luck)), Execute(p, moves).workers[w].call)
  {
    Reachable(p, moves);
    var now := Execute(p, moves);
    var c := now.workers[w].call;
    assert WorkerFits(now, now.workers[w]);
    CountsBounded(now);
    CallFitsOn(now, Own, c, luck);
    OwnAccess(now, w, luck);
    ReturnedCall(now, Own, c, luck);
    ReturnsExcused(now, Own, c, luck);
  }

  lemma OwnAccess(p: Pool, w: nat, luck: bool)
    requires w < |p.workers| && CallNext(p, Own, p.workers[w].call, luck).Some?
    ensures var p', e := OwnCallStep(p, w, luck), CallEffect(p, p.workers[w].call, luck);
            && |p'.workers| == |e.workers| == |p.workers| && p'.pending == e.pending
            && p'.workers[w].call == CallNext(p, Own, p.workers[w].call, luck).value
            && forall u :: 0 <= u < |p.workers| ==> p'.workers[u].event == e.workers[u].event
  {
  }
}
