/** Every access of every worker and every caller keeps the pool invariant. */
module ThreadPoolProof {
  import opened Tally
  import opened ThreadPool

  /** The counts stay between zero and the number of workers. */
  lemma CountsBounded(p: Pool)
    ensures 0 <= Total(p.workers, Counted()) <= Size(p) && 0 <= Total(p.workers, Sleeping()) <= Size(p)
  {
    TotalBound(p.workers, Counted(), 0, 1);
    TotalBound(p.workers, Sleeping(), 0, 1);
  }

  /** When every worker is committed to sleep, the count shows it. */
  lemma AllCounted(p: Pool)
    requires Stranded(p)
    ensures Total(p.workers, Counted()) == Size(p)
  {
    forall w | 0 <= w < |p.workers|
      ensures Counted()(p.workers[w]) == 1
    {
      assert Committed(p.workers[w]);
    }
    TotalBound(p.workers, Counted(), 1, 1);
  }

  // ---------------------------------------------------------------------
  // A worker's move
  // ---------------------------------------------------------------------

  /** One worker moves; nothing that the others know about changes, except counts. */
  ghost predicate WorkerMoves(p: Pool, p': Pool, w: nat, k: Worker) {
    && w < |p.workers| && p'.workers == p.workers[w := k] && p'.callers == p.callers
    && p'.mayBe == p.mayBe + Counted()(k) - Counted()(p.workers[w])
    && p'.sleeping == p.sleeping + Sleeping()(k) - Sleeping()(p.workers[w])
  }

  /** It comes to be committed only by finding the queue empty. */
  ghost predicate CommitsEmpty(p: Pool, p': Pool, w: nat, k: Worker)
    requires w < |p.workers|
  {
    Committed(k) && !k.event && p'.queue != [] ==> Committed(p.workers[w]) && !p.workers[w].event && p.queue != []
  }

  lemma WorkerFitsOn(p: Pool, p': Pool, w: nat, k: Worker)
    requires WorkersFit(p) && CallersFit(p) && WorkerMoves(p, p', w, k) && WorkerFits(p, k)
    ensures WorkersFit(p') && CallersFit(p')
  {
    forall u | 0 <= u < |p'.workers|
      ensures WorkerFits(p', p'.workers[u])
    {
      if u != w {
        assert WorkerFits(p, p.workers[u]);
      }
      assert WorkerFits(p, p'.workers[u]);
    }
    forall o | 0 <= o < |p'.callers|
      ensures CallFits(p', p'.callers[o].call) && !p'.callers[o].kind.Own?
    {
      assert CallFits(p, p.callers[o].call);
    }
  }

  /** Nobody but the worker gets local work. */
  ghost predicate LocalsMove(p: Pool, p': Pool, w: nat, k: Worker) {
    && |p'.local| == |p.local| && w < |p.local| && LocalFits(k, p'.local[w])
    && forall u {:trigger p'.local[u]} :: 0 <= u < |p.local| && u != w && p.local[u] == [] ==> p'.local[u] == []
  }

  lemma LocalsFitOn(p: Pool, p': Pool, w: nat, k: Worker)
    requires LocalsFit(p) && WorkerMoves(p, p', w, k) && LocalsMove(p, p', w, k)
    ensures LocalsFit(p')
  {
    forall u | 0 <= u < |p'.workers|
      ensures LocalFits(p'.workers[u], p'.local[u])
    {
      assert LocalFits(p.workers[u], p.local[u]);
    }
  }

  lemma StrandedBefore(p: Pool, p': Pool, w: nat, k: Worker)
    requires WorkerMoves(p, p', w, k) && CommitsEmpty(p, p', w, k) && Stranded(p')
    ensures Stranded(p)
  {
    assert Committed(p'.workers[w]);
    forall u | 0 <= u < |p.workers|
      ensures Committed(p.workers[u]) && !p.workers[u].event
    {
      assert u != w ==> p'.workers[u] == p.workers[u];
    }
  }

  lemma WorkerKeeps(p: Pool, p': Pool, w: nat, k: Worker)
    requires Inv(p) && WorkerMoves(p, p', w, k) && WorkerFits(p, k) && CommitsEmpty(p, p', w, k)
    requires LocalsMove(p, p', w, k) && 0 <= p'.pending <= Size(p)
    ensures Inv(p') && (Stranded(p') ==> Stranded(p))
  {
    TotalUpdate(p.workers, Counted(), w, k);
    TotalUpdate(p.workers, Sleeping(), w, k);
    WorkerFitsOn(p, p', w, k);
    LocalsFitOn(p, p', w, k);
    if Stranded(p') {
      StrandedBefore(p, p', w, k);
    }
  }

  lemma SleepingShort(p: Pool, w: nat)
    requires w < |p.workers| && Sleeping()(p.workers[w]) == 0
    ensures Total(p.workers, Sleeping()) < Size(p)
  {
    TotalShort(p.workers, Sleeping(), w);
  }

  /** What every access of a worker amounts to. */
  ghost predicate GoodStep(p: Pool, p': Pool, w: nat) {
    && w < |p.workers| == |p'.workers| && WorkerMoves(p, p', w, p'.workers[w]) && WorkerFits(p, p'.workers[w])
    && CommitsEmpty(p, p', w, p'.workers[w]) && LocalsMove(p, p', w, p'.workers[w]) && 0 <= p'.pending <= Size(p)
         && p'.failed == p.failed
  }

  /** A worker between two accesses that are not those of a call. */
  ghost predicate Ready(p: Pool, k: Worker, w: nat) {
    && w < |p.local| && LocalFits(k, p.local[w])
    && WorkerFits(p, k) && k.call.pc.Return? && 0 <= p.pending <= Size(p)
  }

  /** A find takes the coroutine out of one queue. */
  lemma FindLeaves(p: Pool, w: nat, victim: Option<nat>)
    requires w < |p.local|
    ensures TryRemote(p, victim).Some? ==> Leaves(p, TryRemote(p, victim).value)
    ensures TryWork(p, w, victim).Some? ==> Leaves(p, TryWork(p, w, victim).value)
    ensures TryWork(p, w, victim).None? ==> p.local[w] == []
  {
  }

  ghost predicate Leaves(p: Pool, f: Find) {
    && f.pool == p.(queue := f.pool.queue, local := f.pool.local) && |f.pool.local| == |p.local|
    && forall u {:trigger f.pool.local[u]} :: 0 <= u < |p.local| && p.local[u] == [] ==> f.pool.local[u] == []
  }

  /** A worker that has found work, and is not committed to sleep. */
  lemma FoundWork(p: Pool, f: Find, w: nat, k: Worker)
    requires w < |p.workers| && Ready(p, p.workers[w], w) && Leaves(p, f)
    requires WorkerFits(p, k) && k.asleep == p.workers[w].asleep
    requires p.workers[w].pc.Work? || p.workers[w].pc.Scan? || p.workers[w].pc.LastScan?
    requires k.pc.Resume? || (k.pc.Normal? && !p.workers[w].pc.Work?)
    ensures GoodStep(p, Put(f.pool, w, k), w)
  {
  }

  /** A worker that goes on looking. */
  lemma FoundNone(p: Pool, w: nat, k: Worker)
    requires w < |p.workers| && Ready(p, p.workers[w], w) && p.local[w] == [] && p.queue == []
    requires WorkerFits(p, k) && k.asleep == p.workers[w].asleep
    requires p.workers[w].pc.Work? || p.workers[w].pc.Scan? || p.workers[w].pc.LastScan?
    requires k.pc.Scan? || k.pc.LastScan? || k.pc.PendingTest?
    ensures GoodStep(p, Put(p, w, k), w)
  {
  }

  /** The worker looks for work. */
  lemma WorkStep(p: Pool, w: nat, victim: Option<nat>)
    requires w < |p.workers| && Ready(p, p.workers[w], w)
    requires p.workers[w].pc.Work?
    ensures GoodStep(p, Access(p, w, victim), w)
  {
    var k := p.workers[w];
    FindLeaves(p, w, victim);
    match TryWork(p, w, victim)
    case Some(f) =>
      FoundWork(p, f, w, k.(pc := Resume, hand := Some(f.coroutine), call := RETURNED.(pc := ProcessAssert)));
    case None => FoundNone(p, w, k.(pc := Scan, left := CHECKS));
  }

  /** The worker looks for work before sleeping. */
  lemma LookStep(p: Pool, w: nat, victim: Option<nat>, empty: Worker)
    requires w < |p.workers| && Ready(p, p.workers[w], w)
    requires p.workers[w].pc.Scan? || p.workers[w].pc.LastScan?
    requires empty.pc.Scan? || empty.pc.LastScan? || empty.pc.PendingTest?
    requires WorkerFits(p, empty) && empty.asleep == p.workers[w].asleep
    ensures GoodStep(p, Look(p, w, victim, empty), w)
  {
    FindLeaves(p, w, victim);
    match TryRemote(p, victim)
    case Some(f) => FoundWork(p, f, w, p.workers[w].(pc := Normal, hand := Some(f.coroutine)));
    case None => FoundNone(p, w, empty);
  }

  lemma SearchStep(p: Pool, w: nat, victim: Option<nat>)
    requires w < |p.workers| && Ready(p, p.workers[w], w)
    requires p.workers[w].pc.Scan? || p.workers[w].pc.LastScan?
    ensures GoodStep(p, Access(p, w, victim), w)
  {
    var k := p.workers[w];
    var empty := if k.pc.LastScan? then k.(pc := PendingTest)
      else if k.left <= 1 then k.(pc := LastScan) else k.(left := k.left - 1);
    LookStep(p, w, victim, empty);
  }

  /** The worker decides whether to sleep. */
  lemma DecideStep(p: Pool, w: nat, victim: Option<nat>)
    requires w < |p.workers| && Ready(p, p.workers[w], w)
    requires p.workers[w].pc.PendingTest? || p.workers[w].pc.SleepTest?
    ensures GoodStep(p, Access(p, w, victim), w)
  {
  }

  /** The worker announces that it may sleep. */
  lemma AnnounceStep(p: Pool, w: nat, victim: Option<nat>)
    requires w < |p.workers| && Ready(p, p.workers[w], w)
    requires p.workers[w].pc.FlagUp? || p.workers[w].pc.CountUp?
    ensures GoodStep(p, Access(p, w, victim), w)
  {
  }

  /** The worker goes to sleep. */
  lemma SleepStep(p: Pool, w: nat, victim: Option<nat>)
    requires w < |p.workers| && Ready(p, p.workers[w], w)
    requires p.workers[w].pc.SleepAssert? || p.workers[w].pc.SleepUp?
    requires p.workers[w].pc.SleepAssert? ==> p.sleeping < Size(p)
    ensures GoodStep(p, Access(p, w, victim), w)
  {
  }

  /** The worker wakes up. */
  lemma WakeStep(p: Pool, w: nat, victim: Option<nat>)
    requires w < |p.workers| && Ready(p, p.workers[w], w)
    requires var pc := p.workers[w].pc; pc.Wait? || pc.SleepDown? || pc.WakeAssert? || pc.FlagDown? || pc.CountDown?
    requires p.workers[w].pc.WakeAssert? ==> p.sleeping < Size(p)
    ensures GoodStep(p, Access(p, w, victim), w)
  {
  }

  /** The worker goes back to work. */
  lemma ResumeStep(p: Pool, w: nat, victim: Option<nat>)
    requires w < |p.workers| && Ready(p, p.workers[w], w)
    requires p.workers[w].pc.ZeroTest? || p.workers[w].pc.Reset? || p.workers[w].pc.Normal? || p.workers[w].pc.Resume?
    ensures GoodStep(p, Access(p, w, victim), w)
  {
  }

  lemma AccessPreserves(p: Pool, w: nat, victim: Option<nat>)
    requires Inv(p) && Enabled(p, WorkerStep(w, victim))
    ensures Inv(Access(p, w, victim)) && !Access(p, w, victim).failed && |Access(p, w, victim).workers| == |p.workers|
    ensures Stranded(Access(p, w, victim)) ==> Stranded(p)
  {
    var pc := p.workers[w].pc;
    assert WorkerFits(p, p.workers[w]);
    assert LocalFits(p.workers[w], p.local[w]);
    if pc.Work? {
      WorkStep(p, w, victim);
    } else if pc.Scan? || pc.LastScan? {
      SearchStep(p, w, victim);
    } else if pc.ZeroTest? || pc.Reset? || pc.Normal? || pc.Resume? {
      ResumeStep(p, w, victim);
    } else if pc.PendingTest? || pc.SleepTest? {
      DecideStep(p, w, victim);
    } else if pc.FlagUp? || pc.CountUp? {
      AnnounceStep(p, w, victim);
    } else {
      if Sleeping()(p.workers[w]) == 0 {
        SleepingShort(p, w);
      }
      if pc.Wait? || pc.SleepDown? || pc.WakeAssert? || pc.FlagDown? || pc.CountDown? {
        WakeStep(p, w, victim);
      } else {
        SleepStep(p, w, victim);
      }
    }
    WorkerKeeps(p, Access(p, w, victim), w, Access(p, w, victim).workers[w]);
  }

  lemma ActPreserves(p: Pool, w: nat, action: Action)
    requires Inv(p) && Enabled(p, WorkerAct(w, action))
    ensures Inv(Act(p, w, action)) && !Act(p, w, action).failed && |Act(p, w, action).workers| == |p.workers|
    ensures Stranded(Act(p, w, action)) ==> Stranded(p)
  {
    assert WorkerFits(p, p.workers[w]);
    WorkerKeeps(p, Act(p, w, action), w, Act(p, w, action).workers[w]);
  }

  // ---------------------------------------------------------------------
  // Waking
  // ---------------------------------------------------------------------

  lemma CallFitsOn(p: Pool, kind: Kind, c: Call, luck: bool)
    requires |p.workers| >= 1 && CallFits(p, c) && 0 <= p.pending <= Size(p) && p.mayBe <= Size(p)
    ensures CallNext(p, kind, c, luck).Some? && CallFits(p, CallNext(p, kind, c, luck).value)
    ensures 0 <= CallEffect(p, c, luck).pending <= Size(p)
  {
    PendingFits(p, c, luck);
    if c.pc.LoopCount? || c.pc.LoopFlag? || c.pc.LoopSet? || c.pc.Decide? || c.pc.OfferPending? {
      LoopFits(p, kind, c, luck);
    } else {
      OtherFits(p, kind, c, luck);
    }
  }

  lemma LoopFits(p: Pool, kind: Kind, c: Call, luck: bool)
    requires |p.workers| >= 1 && CallFits(p, c)
    requires c.pc.LoopCount? || c.pc.LoopFlag? || c.pc.LoopSet? || c.pc.Decide? || c.pc.OfferPending?
    ensures CallNext(p, kind, c, luck).Some? && CallFits(p, CallNext(p, kind, c, luck).value)
  {
  }

  lemma OtherFits(p: Pool, kind: Kind, c: Call, luck: bool)
    requires CallFits(p, c) && 0 <= p.pending <= Size(p) && p.mayBe <= Size(p)
    requires !(c.pc.LoopCount? || c.pc.LoopFlag? || c.pc.LoopSet? || c.pc.Decide? || c.pc.OfferPending?)
    ensures CallNext(p, kind, c, luck).Some? && CallFits(p, CallNext(p, kind, c, luck).value)
  {
  }

  lemma PendingFits(p: Pool, c: Call, luck: bool)
    requires CallFits(p, c) && 0 <= p.pending <= Size(p)
    ensures 0 <= CallEffect(p, c, luck).pending <= Size(p)
  {
  }

  /** What a call may change in the pool. */
  lemma EffectKeeps(p: Pool, c: Call, luck: bool)
    requires Inv(p) && CallFits(p, c)
    ensures Inv(CallEffect(p, c, luck)) && (Stranded(CallEffect(p, c, luck)) ==> Stranded(p))
  {
    var p' := CallEffect(p, c, luck);
    if c.pc.LoopSet? && (c.immediate || luck) {
      assert WorkerFits(p, p.workers[c.i]);
      assert LocalFits(p.workers[c.i], p.local[c.i]);
      WorkerKeeps(p, p', c.i, p.workers[c.i].(event := true));
    } else {
      WorkerKeeps(p, p', 0, p.workers[0]) by {
        assert p.workers[0 := p.workers[0]] == p.workers;
        assert WorkerFits(p, p.workers[0]);
        assert LocalFits(p.workers[0], p.local[0]);
      }
    }
  }

  lemma OwnCallPreserves(p: Pool, w: nat, luck: bool)
    requires Inv(p) && Enabled(p, WorkerCall(w, luck))
    ensures Inv(OwnCallStep(p, w, luck)) && !OwnCallStep(p, w, luck).failed
    ensures |OwnCallStep(p, w, luck).workers| == |p.workers|
    ensures Stranded(OwnCallStep(p, w, luck)) ==> Stranded(p)
  {
    var c := p.workers[w].call;
    assert WorkerFits(p, p.workers[w]);
    CountsBounded(p);
    CallFitsOn(p, Own, c, luck);
    EffectKeeps(p, c, luck);
    EffectWorker(p, c, luck, w);
    SetOwnCall(CallEffect(p, c, luck), w, CallNext(p, Own, c, luck).value);
  }

  /** A call changes nothing of a worker but its event. */
  lemma EffectWorker(p: Pool, c: Call, luck: bool, w: nat)
    requires w < |p.workers|
    ensures var p' := CallEffect(p, c, luck);
            |p'.workers| == |p.workers| && p'.workers[w] == p.workers[w].(event := p'.workers[w].event)
                && p'.failed == p.failed
  {
  }

  /** A worker inside a call is not committed to sleep, wherever the call goes next. */
  lemma SetOwnCall(p: Pool, w: nat, c: Call)
    requires Inv(p) && w < |p.workers| && CallFits(p, c) && !p.workers[w].call.pc.Return?
    ensures var p' := Put(p, w, p.workers[w].(call := c));
            Inv(p') && (Stranded(p') ==> Stranded(p))
  {
    assert WorkerFits(p, p.workers[w]);
    assert LocalFits(p.workers[w], p.local[w]);
    var k := p.workers[w].(call := c);
    WorkerKeeps(p, Put(p, w, k), w, k);
  }

  /** A caller that is about to wake somebody, in a pool with stranded work, goes on to do so. */
  lemma GoesOn(p: Pool, kind: Kind, c: Call, luck: bool)
    requires Inv(p) && Stranded(p) && !kind.Own? && CallFits(p, c) && AboutToWake(c)
    ensures c.pc.LoopSet? ==> CallEffect(p, c, luck) == SetEvent(p, 0)
    ensures !c.pc.LoopSet? ==>
            CallEffect(p, c, luck) == p && CallNext(p, kind, c, luck).Some?
                && AboutToWake(CallNext(p, kind, c, luck).value)
  {
    AllCounted(p);
    assert Committed(p.workers[0]);
  }

  lemma NotStranded(p: Pool, i: nat)
    requires i < Size(p)
    ensures !Stranded(SetEvent(p, i))
  {
    assert SetEvent(p, i).workers[i].event;
  }

  lemma CallerWindow(p: Pool, o: nat, luck: bool)
    requires Inv(p) && Enabled(p, CallerStep(o, luck)) && CallFits(p, p.callers[o].call) && !p.callers[o].kind.Own?
    requires CallNext(p, p.callers[o].kind, p.callers[o].call, luck).Some?
    ensures Stranded(CallStep(p, o, luck)) ==> SomebodyWakes(CallStep(p, o, luck))
  {
    var p' := CallStep(p, o, luck);
    var c := p.callers[o].call;
    if c.pc.LoopSet? && (c.immediate || luck) {
      NotStranded(p, c.i);
      assert p'.workers == SetEvent(p, c.i).workers;
    } else if Stranded(p) {
      var u :| 0 <= u < |p.callers| && AboutToWake(p.callers[u].call);
      if u == o {
        GoesOn(p, p.callers[o].kind, c, luck);
      }
      assert AboutToWake(p'.callers[u].call);
    }
  }

  lemma CallerPreserves(p: Pool, o: nat, luck: bool)
    requires Inv(p) && Enabled(p, CallerStep(o, luck))
    ensures Inv(CallStep(p, o, luck)) && !CallStep(p, o, luck).failed && |CallStep(p, o, luck).workers| == |p.workers|
    ensures Stranded(CallStep(p, o, luck)) ==> Stranded(p)
  {
    var c := p.callers[o].call;
    assert CallFits(p, c);
    CountsBounded(p);
    CallFitsOn(p, p.callers[o].kind, c, luck);
    EffectKeeps(p, c, luck);
    EffectWorker(p, c, luck, 0);
    var c' := CallNext(p, p.callers[o].kind, c, luck).value;
    CallerAccess(p, o, luck, c');
    CallerWindow(p, o, luck);
    EffectSize(p, c, luck, c');
    SetCaller(CallEffect(p, c, luck), o, c');
    SameWork(CallEffect(p, c, luck), CallStep(p, o, luck));
  }

  lemma CallerAccess(p: Pool, o: nat, luck: bool, c': Call)
    requires o < |p.callers| && CallNext(p, p.callers[o].kind, p.callers[o].call, luck) == Some(c')
    ensures var p' := CallEffect(p, p.callers[o].call, luck);
            && p'.callers == p.callers
            && CallStep(p, o, luck) == p'.(callers := p.callers[o := p.callers[o].(call := c')])
  {
  }

  /** What fits the pool before a call's effect fits it afterwards. */
  lemma EffectSize(p: Pool, c: Call, luck: bool, c': Call)
    requires CallFits(p, c') && |CallEffect(p, c, luck).workers| == |p.workers|
    ensures CallFits(CallEffect(p, c, luck), c')
  {
  }

  lemma SameWork(p: Pool, p': Pool)
    requires p'.workers == p.workers && p'.queue == p.queue
    ensures Stranded(p') <==> Stranded(p)
  {
  }

  /** A caller's locals matter to nobody else. */
  lemma SetCaller(p: Pool, o: nat, c: Call)
    requires Inv(p) && o < |p.callers| && CallFits(p, c)
    ensures var p' := p.(callers := p.callers[o := p.callers[o].(call := c)]);
            (Stranded(p') ==> SomebodyWakes(p')) ==> Inv(p')
  {
    var p' := p.(callers := p.callers[o := p.callers[o].(call := c)]);
    forall u | 0 <= u < |p'.workers|
      ensures WorkerFits(p', p'.workers[u])
    {
      assert WorkerFits(p, p.workers[u]);
    }
    forall u | 0 <= u < |p'.callers|
      ensures CallFits(p', p'.callers[u].call) && !p'.callers[u].kind.Own?
    {
      assert CallFits(p, p.callers[u].call);
    }
  }

  lemma EnqueuePreserves(p: Pool, o: nat, c: nat)
    requires Inv(p) && Enabled(p, Enqueue(o, c))
    ensures Inv(Next(p, Enqueue(o, c)))
  {
    var p' := Next(p, Enqueue(o, c));
    assert AboutToWake(p'.callers[o].call);
    forall u | 0 <= u < |p'.workers|
      ensures WorkerFits(p', p'.workers[u])
    {
      assert WorkerFits(p, p.workers[u]);
    }
    forall u | 0 <= u < |p'.callers|
      ensures CallFits(p', p'.callers[u].call) && !p'.callers[u].kind.Own?
    {
      assert CallFits(p, p.callers[u].call);
    }
  }

  // ---------------------------------------------------------------------
  // All moves
  // ---------------------------------------------------------------------

  lemma InitialInv(p: Pool)
    requires Initial(p)
    ensures Inv(p)
  {
    TotalZero(p.workers, Counted());
    TotalZero(p.workers, Sleeping());
  }

  /** The invariant is kept by every move; no assertion fails; and only an enqueue can strand work. */
  lemma Preserved(p: Pool, m: Move)
    requires Inv(p)
    ensures Inv(Next(p, m)) && Next(p, m).failed == p.failed && |Next(p, m).workers| == |p.workers|
    ensures Stranded(Next(p, m)) ==> Stranded(p) || (Enabled(p, m) && m.Enqueue?)
  {
    if Enabled(p, m) {
      match m
      case WorkerStep(w, victim) => AccessPreserves(p, w, victim);
      case WorkerAct(w, action) => ActPreserves(p, w, action);
      case WorkerCall(w, luck) => OwnCallPreserves(p, w, luck);
      case Enqueue(o, c) => EnqueuePreserves(p, o, c);
      case CallerStep(o, luck) => CallerPreserves(p, o, luck);
    }
  }
}
