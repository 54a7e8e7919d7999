/** What a worker of the pool does when it moves alone: it runs what it finds, or goes to sleep. */
module ThreadPoolWorkerAlone {
  import opened Tally
  import opened Undisturbed
  import opened ThreadPool
  import opened ThreadPoolProof
  import opened ThreadPoolAlone

  // ---------------------------------------------------------------------
  // A call of a worker
  // ---------------------------------------------------------------------

  lemma {:induction false} Stays(x: Lone, kind: Kind, held: set<nat>, n: nat)
    requires x.call.pc.Return?
    ensures Alone(x, kind, held, n) == x
    decreases n
  {
    if n > 0 {
      assert Forward(x, kind, held) == x;
      Stays(x, kind, held, n - 1);
      AloneMore(x, kind, held, 1, n - 1);
      OneMore(x, kind, held);
    }
  }

  /** The worker's accesses until its call has returned. */
  lemma {:induction false} WorkerRuns(w: nat, x: Lone, held: set<nat>, victim: Option<nat>, n: nat) returns (m: nat)
    requires Sound(x) && w < Size(x.pool) && Alone(x, Own, held, n).call.pc.Return?
    ensures Size(Alone(x, Own, held, n).pool) == Size(x.pool)
    ensures WorkerAlone(ByWorker(w, x), w, held, victim, m) == ByWorker(w, Alone(x, Own, held, n))
    decreases n
  {
    SoundAlone(x, Own, held, n);
    if x.call.pc.Return? {
      m := 0;
      Stays(x, Own, held, n);
    } else {
      SoundOn(x, Own, held);
      AloneMore(x, Own, held, 1, n - 1);
      OneMore(x, Own, held);
      m := WorkerRuns(w, Forward(x, Own, held), held, victim, n - 1);
      WorkerAgrees(w, x, held, victim);
      WorkerMore(ByWorker(w, x), w, held, victim, 1, m);
      WorkerOnce(ByWorker(w, x), w, held, victim);
      m := m + 1;
    }
  }

  /** What the loop looks at. */
  lemma {:induction false} FlagsDecide(p: Pool, q: Pool, i: nat, immediate: bool, held: set<nat>)
    requires i <= Size(p) == Size(q)
    requires forall u :: 0 <= u < Size(p) ==> q.workers[u].asleep == p.workers[u].asleep
    ensures FirstFrom(q, i, immediate, held) == FirstFrom(p, i, immediate, held)
    decreases Size(p) - i
  {
    if i < Size(p) && !Wakeable(p, i, immediate, held) {
      FlagsDecide(p, q, i + 1, immediate, held);
    }
  }

  /** A worker that does not sleep is nothing to the loop, and is not woken. */
  lemma WakeSpares(p: Pool, w: nat, k: Worker, kind: Kind, held: set<nat>)
    requires w < Size(p) && !p.workers[w].asleep && !k.asleep
    ensures Size(WakeOutcome(p, kind, held)) == Size(p)
    ensures WakeOutcome(p, kind, held).workers[w] == p.workers[w]
    ensures WakeOutcome(Put(p, w, k), kind, held) == Put(WakeOutcome(p, kind, held), w, k)
  {
    FlagsDecide(p, Put(p, w, k), 0, Insists(p, kind), held);
    var j := FirstFrom(p, 0, Insists(p, kind), held);
    if j < Size(p) {
      assert p.workers[w := k][j := p.workers[j].(event := true)]
          == p.workers[j := p.workers[j].(event := true)][w := k];
    }
  }

  lemma ProcessSpares(p: Pool, w: nat, k: Worker, held: set<nat>)
    requires w < Size(p) && !p.workers[w].asleep && !k.asleep
    ensures Size(ProcessOutcome(p, Own, held)) == Size(p)
    ensures ProcessOutcome(p, Own, held).workers[w] == p.workers[w]
    ensures ProcessOutcome(Put(p, w, k), Own, held) == Put(ProcessOutcome(p, Own, held), w, k)
  {
    if p.pending != 0 {
      WakeSpares(p.(pending := p.pending - 1), w, k, Own, held);
    }
  }

  ghost predicate Calm(p: Pool, w: nat) {
    && w < Size(p) && !p.failed && 0 <= p.pending <= Size(p) && p.mayBe <= Size(p)
    && p.workers[w].call == RETURNED
  }

  lemma CalmIn(p: Pool, w: nat)
    requires Inv(p) && !p.failed && w < Size(p) && p.workers[w].call.pc.Return?
    ensures Calm(p, w)
  {
    CountsBounded(p);
    assert WorkerFits(p, p.workers[w]);
  }

  /** A worker about to process one pending request and to resume what it has in hand. */
  function Resuming(k: Worker): Worker {
    k.(pc := Resume, call := RETURNED.(pc := ProcessAssert))
  }

  /** Where it goes: into the coroutine, or back to look for work. */
  function Resumed(k: Worker): Worker {
    k.(pc := if k.hand.Some? then Busy else Work, call := RETURNED)
  }

  lemma ResumesLast(q: Pool, w: nat, held: set<nat>, victim: Option<nat>, k: Worker)
    requires w < Size(q) && !k.asleep && !q.failed && q.workers[w] == Resuming(k)
    ensures Size(ProcessOutcome(q, Own, held)) == Size(q)
    ensures var r := ByWorker(w, Lone(ProcessOutcome(q, Own, held), RETURNED));
            WorkerAlone(r, w, held, victim, 1) == ProcessOutcome(Put(q, w, Resumed(k)), Own, held)
  {
    ProcessSpares(q, w, Resumed(k), held);
    var r := ByWorker(w, Lone(ProcessOutcome(q, Own, held), RETURNED));
    WorkerOnce(r, w, held, victim);
    assert r.workers[w := Resumed(k)] == ProcessOutcome(q, Own, held).workers[w := Resumed(k)];
  }

  /** The worker processes one pending request and goes on with what it has. */
  lemma Resumes(p: Pool, w: nat, held: set<nat>, victim: Option<nat>, k: Worker) returns (n: nat)
    requires Calm(p, w) && !k.asleep
    ensures WorkerAlone(Put(p, w, Resuming(k)), w, held, victim, n) == ProcessOutcome(Put(p, w, Resumed(k)), Own, held)
  {
    var q := Put(p, w, Resuming(k));
    var x := Lone(q, RETURNED.(pc := ProcessAssert));
    assert ByWorker(w, x) == q;
    var m := ProcessAlone(q, Own, held);
    n := WorkerRuns(w, x, held, victim, m);
    ResumesLast(q, w, held, victim, k);
    WorkerMore(q, w, held, victim, n, 1);
    n := n + 1;
    assert Put(q, w, Resumed(k)) == Put(p, w, Resumed(k));
  }

  // ---------------------------------------------------------------------
  // A worker that finds work
  // ---------------------------------------------------------------------

  lemma Steps(p: Pool, w: nat, held: set<nat>, victim: Option<nat>)
    requires Calm(p, w) && !p.workers[w].pc.Busy? && (p.workers[w].pc.Wait? ==> p.workers[w].event)
    ensures WorkerForward(p, w, held, victim) == Access(p, w, victim)
  {
  }

  /**
   A worker that finds a coroutine when it looks for work processes one pending
   request and is then inside that coroutine, if it moves alone.
   */
  lemma RunsWork(p: Pool, w: nat, held: set<nat>, victim: Option<nat>) returns (n: nat)
    requires Inv(p) && Enabled(p, WorkerStep(w, victim)) && p.workers[w].pc.Work? && TryWork(p, w, victim).Some?
    ensures var f := TryWork(p, w, victim).value;
            && Size(f.pool) == Size(p)
            && WorkerAlone(p, w, held, victim, n) ==
               ProcessOutcome(Put(f.pool, w, p.workers[w].(pc := Busy, hand := Some(f.coroutine))), Own, held)
  {
    CalmIn(p, w);
    assert WorkerFits(p, p.workers[w]);
    var f := TryWork(p, w, victim).value;
    var k := p.workers[w].(hand := Some(f.coroutine));
    FindLeaves(p, w, victim);
    Steps(p, w, held, victim);
    assert Access(p, w, victim) == Put(f.pool, w, Resuming(k));
    n := Resumes(f.pool, w, held, victim, k);
    WorkerMore(p, w, held, victim, 1, n);
    WorkerOnce(p, w, held, victim);
    n := n + 1;
  }

  /** A worker that has not announced that it may sleep goes on with what it has found. */
  lemma NormalAwake(p: Pool, w: nat, held: set<nat>, victim: Option<nat>) returns (n: nat)
    requires Calm(p, w) && p.workers[w].pc.Normal? && !p.workers[w].asleep
    ensures WorkerAlone(p, w, held, victim, n) == ProcessOutcome(Put(p, w, Resumed(p.workers[w])), Own, held)
  {
    Steps(p, w, held, victim);
    assert Access(p, w, victim) == Put(p, w, Resuming(p.workers[w]));
    n := Resumes(p, w, held, victim, p.workers[w]);
    WorkerMore(p, w, held, victim, 1, n);
    WorkerOnce(p, w, held, victim);
    n := n + 1;
  }

  /** What setSleeping(false) makes of the pool. */
  function Awake(p: Pool): Pool {
    p.(mayBe := p.mayBe - 1, pending := if p.mayBe == 1 then 0 else p.pending)
  }

  /** One access more. */
  lemma Extend(p: Pool, w: nat, held: set<nat>, victim: Option<nat>, n: nat, q: Pool, r: Pool)
    requires WorkerAlone(p, w, held, victim, n) == q && WorkerForward(q, w, held, victim) == r
    ensures WorkerAlone(p, w, held, victim, n + 1) == r
  {
    WorkerMore(p, w, held, victim, n, 1);
    WorkerOnce(q, w, held, victim);
  }

  lemma FlagSteps(p: Pool, w: nat, held: set<nat>, victim: Option<nat>)
    requires Calm(p, w) && p.workers[w].pc.FlagDown?
    ensures WorkerAlone(p, w, held, victim, 2) ==
              Put(p.(mayBe := p.mayBe - 1), w, p.workers[w].(pc := ZeroTest, asleep := false))
  {
    var k := p.workers[w];
    var p1 := Put(p, w, k.(pc := CountDown, asleep := false));
    var p2 := Put(p.(mayBe := p.mayBe - 1), w, k.(pc := ZeroTest, asleep := false));
    assert WorkerForward(p, w, held, victim) == p1;
    Extend(p, w, held, victim, 0, p, p1);
    assert WorkerForward(p1, w, held, victim) == p2;
    Extend(p, w, held, victim, 1, p1, p2);
  }

  lemma ZeroSteps(p: Pool, w: nat, held: set<nat>, victim: Option<nat>)
    requires Calm(p, w) && p.workers[w].pc.ZeroTest?
    ensures WorkerAlone(p, w, held, victim, if p.mayBe == 0 then 2 else 1) ==
              Put(p.(pending := if p.mayBe == 0 then 0 else p.pending), w, AfterWaking(p.workers[w]))
  {
    var k := p.workers[w];
    if p.mayBe == 0 {
      var p1 := Put(p, w, k.(pc := Reset));
      Extend(p, w, held, victim, 0, p, p1);
      Extend(p, w, held, victim, 1, p1, Put(p.(pending := 0), w, AfterWaking(k)));
    } else {
      Extend(p, w, held, victim, 0, p, Put(p, w, AfterWaking(k)));
    }
  }

  /** setSleeping(false), alone. */
  lemma LowersFlag(p: Pool, w: nat, held: set<nat>, victim: Option<nat>) returns (n: nat)
    requires Calm(p, w) && p.workers[w].pc.FlagDown?
    ensures WorkerAlone(p, w, held, victim, n) == Put(Awake(p), w, AfterWaking(p.workers[w].(asleep := false)))
  {
    FlagSteps(p, w, held, victim);
    var q := WorkerAlone(p, w, held, victim, 2);
    ZeroSteps(q, w, held, victim);
    n := if q.mayBe == 0 then 2 else 1;
    WorkerMore(p, w, held, victim, 2, n);
    n := n + 2;
  }

  /** A worker that has announced that it may sleep takes that back, and goes on with what it has found. */
  lemma NormalAsleep(p: Pool, w: nat, held: set<nat>, victim: Option<nat>) returns (n: nat)
    requires Calm(p, w) && p.workers[w].pc.Normal? && p.workers[w].asleep && p.mayBe >= 1
    ensures WorkerAlone(p, w, held, victim, n) ==
              Put(Awake(p), w, Resumed(p.workers[w].(asleep := false, woken := false)))
  {
    var k := p.workers[w].(asleep := false, woken := false);
    var p1 := Put(p, w, p.workers[w].(pc := FlagDown, woken := false));
    Extend(p, w, held, victim, 0, p, p1);
    n := LowersFlag(p1, w, held, victim);
    WorkerMore(p, w, held, victim, 1, n);
    var q := Put(Awake(p), w, k.(pc := Resume));
    assert WorkerAlone(p, w, held, victim, n + 1) == q;
    Extend(p, w, held, victim, n + 1, q, Put(Awake(p), w, Resumed(k)));
    n := n + 2;
  }

  /** What follows a look: with a coroutine, or with none because somebody asked for a wake-up. */
  function Proceeds(p: Pool, w: nat, held: set<nat>): Pool
    requires w < Size(p)
  {
    var k := p.workers[w];
    if k.asleep then Put(Awake(p), w, Resumed(k.(asleep := false, woken := false)))
    else ProcessOutcome(Put(p, w, Resumed(k)), Own, held)
  }

  lemma NormalAlone(p: Pool, w: nat, held: set<nat>, victim: Option<nat>) returns (n: nat)
    requires Calm(p, w) && p.workers[w].pc.Normal? && (p.workers[w].asleep ==> p.mayBe >= 1)
    ensures WorkerAlone(p, w, held, victim, n) == Proceeds(p, w, held)
  {
    if p.workers[w].asleep {
      n := NormalAsleep(p, w, held, victim);
    } else {
      n := NormalAwake(p, w, held, victim);
    }
  }

  lemma CountedOnce(p: Pool, w: nat)
    requires Inv(p) && w < Size(p) && p.workers[w].asleep && !p.workers[w].pc.CountUp?
    ensures p.mayBe >= 1
  {
    TotalDominates(p.workers, Counted(), w);
  }

  /**
   A worker that finds a coroutine in one of its looks before sleeping is then
   inside that coroutine, if it moves alone; it no longer counts as a sleeper,
   or has processed one pending request.
   */
  lemma RunsLateWork(p: Pool, w: nat, held: set<nat>, victim: Option<nat>) returns (n: nat)
    requires Inv(p) && Enabled(p, WorkerStep(w, victim)) && TryRemote(p, victim).Some?
    requires p.workers[w].pc.Scan? || p.workers[w].pc.LastScan?
    ensures var f := TryRemote(p, victim).value;
            && Size(f.pool) == Size(p)
            && WorkerAlone(p, w, held, victim, n) ==
               Proceeds(Put(f.pool, w, p.workers[w].(pc := Normal, hand := Some(f.coroutine))), w, held)
  {
    CalmIn(p, w);
    var f := TryRemote(p, victim).value;
    FindLeaves(p, w, victim);
    if p.workers[w].asleep {
      CountedOnce(p, w);
    }
    Steps(p, w, held, victim);
    var q := Put(f.pool, w, p.workers[w].(pc := Normal, hand := Some(f.coroutine)));
    assert Access(p, w, victim) == q;
    n := NormalAlone(q, w, held, victim);
    WorkerMore(p, w, held, victim, 1, n);
    WorkerOnce(p, w, held, victim);
    n := n + 1;
  }

  // ---------------------------------------------------------------------
  // A worker that finds nothing
  // ---------------------------------------------------------------------

  lemma LastLooks(p: Pool, w: nat, held: set<nat>, victim: Option<nat>)
    requires Calm(p, w) && TryRemote(p, victim).None? && p.workers[w].pc.Scan? && p.workers[w].left == 1
    ensures WorkerAlone(p, w, held, victim, 2) == Put(p, w, p.workers[w].(pc := PendingTest))
  {
    var k := p.workers[w];
    var p1 := Put(p, w, k.(pc := LastScan));
    Extend(p, w, held, victim, 0, p, p1);
    Extend(p, w, held, victim, 1, p1, Put(p, w, k.(pc := PendingTest)));
  }

  /** The looks of one turn of the outer loop all find nothing. */
  lemma {:induction false} FindsNothing(p: Pool, w: nat, held: set<nat>, victim: Option<nat>)
    requires Calm(p, w) && TryRemote(p, victim).None? && p.workers[w].pc.Scan? && p.workers[w].left >= 1
    ensures WorkerAlone(p, w, held, victim, p.workers[w].left + 1) ==
              Put(p, w, p.workers[w].(pc := PendingTest, left := 1))
    decreases p.workers[w].left
  {
    var k := p.workers[w];
    if k.left == 1 {
      LastLooks(p, w, held, victim);
    } else {
      var p1 := Put(p, w, k.(left := k.left - 1));
      Extend(p, w, held, victim, 0, p, p1);
      FindsNothing(p1, w, held, victim);
      WorkerMore(p, w, held, victim, 1, k.left);
      assert Put(p1, w, k.(pc := PendingTest, left := 1)) == Put(p, w, k.(pc := PendingTest, left := 1));
    }
  }

  /** It announces that it may sleep, and looks again. */
  lemma Announces(p: Pool, w: nat, held: set<nat>, victim: Option<nat>)
    requires Calm(p, w) && p.workers[w].pc.PendingTest? && p.pending == 0 && !p.workers[w].asleep
    ensures WorkerAlone(p, w, held, victim, 4) ==
              Put(p.(mayBe := p.mayBe + 1), w, p.workers[w].(pc := Scan, asleep := true, left := CHECKS))
  {
    var k := p.workers[w];
    var p1, p2 := Put(p, w, k.(pc := SleepTest)), Put(p, w, k.(pc := FlagUp));
    var p3 := Put(p, w, k.(pc := CountUp, asleep := true));
    Extend(p, w, held, victim, 0, p, p1);
    Extend(p, w, held, victim, 1, p1, p2);
    Extend(p, w, held, victim, 2, p2, p3);
    Extend(p, w, held, victim, 3, p3,
           Put(p.(mayBe := p.mayBe + 1), w, k.(pc := Scan, asleep := true, left := CHECKS)));
  }

  /** It goes to sleep. */
  lemma FallsAsleep(p: Pool, w: nat, held: set<nat>, victim: Option<nat>)
    requires Calm(p, w) && p.workers[w].pc.PendingTest? && p.pending == 0 && p.workers[w].asleep && p.sleeping < Size(p)
    ensures WorkerAlone(p, w, held, victim, 4) == Put(p.(sleeping := p.sleeping + 1), w, p.workers[w].(pc := Wait))
  {
    var k := p.workers[w];
    var p1, p2 := Put(p, w, k.(pc := SleepTest)), Put(p, w, k.(pc := SleepAssert));
    var p3 := Put(p, w, k.(pc := SleepUp));
    Extend(p, w, held, victim, 0, p, p1);
    Extend(p, w, held, victim, 1, p1, p2);
    Extend(p, w, held, victim, 2, p2, p3);
    Extend(p, w, held, victim, 3, p3, Put(p.(sleeping := p.sleeping + 1), w, k.(pc := Wait)));
  }

  lemma StartsLooking(p: Pool, w: nat, held: set<nat>, victim: Option<nat>)
    requires Calm(p, w) && p.workers[w].pc.Work? && TryWork(p, w, victim).None?
    ensures WorkerAlone(p, w, held, victim, CHECKS + 2) == Put(p, w, p.workers[w].(pc := PendingTest, left := 1))
  {
    var k := p.workers[w];
    var p1 := Put(p, w, k.(pc := Scan, left := CHECKS));
    Extend(p, w, held, victim, 0, p, p1);
    FindsNothing(p1, w, held, victim);
    WorkerMore(p, w, held, victim, 1, CHECKS + 1);
    assert Put(p1, w, k.(pc := PendingTest, left := 1)) == Put(p, w, k.(pc := PendingTest, left := 1));
  }

  lemma AnnouncesAndLooks(p: Pool, w: nat, held: set<nat>, victim: Option<nat>)
    requires Calm(p, w) && p.workers[w].pc.PendingTest? && p.pending == 0 && !p.workers[w].asleep
    requires TryRemote(p, victim).None? && p.mayBe < Size(p)
    ensures WorkerAlone(p, w, held, victim, CHECKS + 5) ==
              Put(p.(mayBe := p.mayBe + 1), w, p.workers[w].(asleep := true, left := 1))
  {
    var k := p.workers[w];
    Announces(p, w, held, victim);
    var p1 := WorkerAlone(p, w, held, victim, 4);
    FindsNothing(p1, w, held, victim);
    WorkerMore(p, w, held, victim, 4, CHECKS + 1);
    assert Put(p1, w, k.(asleep := true, left := 1)) == Put(p.(mayBe := p.mayBe + 1), w, k.(asleep := true, left := 1));
  }

  lemma Uncounted(p: Pool, w: nat)
    requires Inv(p) && w < Size(p) && p.workers[w].pc.Work?
    ensures p.mayBe < Size(p) && p.sleeping < Size(p)
  {
    assert WorkerFits(p, p.workers[w]);
    TotalShort(p.workers, Counted(), w);
    TotalShort(p.workers, Sleeping(), w);
  }

  /** The worker that waits for its event, after it has found nothing and announced itself. */
  function Asleep(p: Pool, w: nat): Pool
    requires w < Size(p)
  {
    Put(p.(mayBe := p.mayBe + 1, sleeping := p.sleeping + 1), w, p.workers[w].(pc := Wait, asleep := true, left := 1))
  }

  lemma AnnouncesItself(p: Pool, w: nat, held: set<nat>, victim: Option<nat>)
    requires Calm(p, w) && p.workers[w].pc.Work? && !p.workers[w].asleep && p.mayBe < Size(p)
    requires TryWork(p, w, victim).None? && p.pending == 0
    ensures WorkerAlone(p, w, held, victim, 2 * CHECKS + 7) ==
              Put(p.(mayBe := p.mayBe + 1), w, p.workers[w].(pc := PendingTest, asleep := true, left := 1))
  {
    var k := p.workers[w];
    StartsLooking(p, w, held, victim);
    var p1 := Put(p, w, k.(pc := PendingTest, left := 1));
    AnnouncesAndLooks(p1, w, held, victim);
    WorkerMore(p, w, held, victim, CHECKS + 2, CHECKS + 5);
    var k2 := k.(pc := PendingTest, asleep := true, left := 1);
    assert Put(p1.(mayBe := p.mayBe + 1), w, k2) == Put(p.(mayBe := p.mayBe + 1), w, k2);
  }

  lemma ComesToSleep(p: Pool, w: nat, held: set<nat>, victim: Option<nat>, n: nat)
    requires Calm(p, w) && p.pending == 0 && p.mayBe < Size(p) && p.sleeping < Size(p)
    requires WorkerAlone(p, w, held, victim, n) ==
               Put(p.(mayBe := p.mayBe + 1), w, p.workers[w].(pc := PendingTest, asleep := true, left := 1))
    ensures WorkerAlone(p, w, held, victim, n + 4) == Asleep(p, w)
  {
    var p2 := Put(p.(mayBe := p.mayBe + 1), w, p.workers[w].(pc := PendingTest, asleep := true, left := 1));
    FallsAsleep(p2, w, held, victim);
    WorkerMore(p, w, held, victim, n, 4);
    assert Put(p2.(sleeping := p.sleeping + 1), w, p2.workers[w].(pc := Wait)) == Asleep(p, w);
  }

  lemma AwakeAtWork(p: Pool, w: nat)
    requires Inv(p) && w < Size(p) && p.workers[w].pc.Work?
    ensures !p.workers[w].asleep
  {
    assert WorkerFits(p, p.workers[w]);
  }

  /** A worker that finds no work and no request to wake up is asleep after 75 accesses, if it moves alone. */
  lemma SleepsAlone(p: Pool, w: nat, held: set<nat>, victim: Option<nat>)
    requires Inv(p) && Enabled(p, WorkerStep(w, victim)) && p.workers[w].pc.Work?
    requires TryWork(p, w, victim).None? && p.pending == 0
    ensures WorkerAlone(p, w, held, victim, 75) == Asleep(p, w)
  {
    CalmIn(p, w);
    Uncounted(p, w);
    AwakeAtWork(p, w);
    AnnouncesItself(p, w, held, victim);
    ComesToSleep(p, w, held, victim, 2 * CHECKS + 7);
  }

  lemma FindsRequest(p: Pool, w: nat, held: set<nat>, victim: Option<nat>)
    requires Calm(p, w) && p.workers[w].pc.Work? && TryWork(p, w, victim).None? && p.pending != 0
    ensures WorkerAlone(p, w, held, victim, CHECKS + 3) == Put(p, w, p.workers[w].(pc := Normal, left := 1))
  {
    StartsLooking(p, w, held, victim);
    var p1 := Put(p, w, p.workers[w].(pc := PendingTest, left := 1));
    var p2 := Put(p, w, p.workers[w].(pc := Normal, left := 1));
    assert p2 == Put(p1, w, p1.workers[w].(pc := Normal));
    Extend(p, w, held, victim, CHECKS + 2, p1, p2);
  }

  /** A worker that finds no work but a request to wake up passes the request on and looks again. */
  lemma PassesRequestOn(p: Pool, w: nat, held: set<nat>, victim: Option<nat>) returns (n: nat)
    requires Inv(p) && Enabled(p, WorkerStep(w, victim)) && p.workers[w].pc.Work?
    requires TryWork(p, w, victim).None? && p.pending != 0
    ensures WorkerAlone(p, w, held, victim, n) == ProcessOutcome(Put(p, w, p.workers[w].(left := 1)), Own, held)
  {
    CalmIn(p, w);
    assert WorkerFits(p, p.workers[w]);
    FindsRequest(p, w, held, victim);
    var p2 := Put(p, w, p.workers[w].(pc := Normal, left := 1));
    n := NormalAwake(p2, w, held, victim);
    WorkerMore(p, w, held, victim, CHECKS + 3, n);
    assert Put(p2, w, Resumed(p2.workers[w])) == Put(p, w, p.workers[w].(left := 1));
    n := n + CHECKS + 3;
  }

  // ---------------------------------------------------------------------
  // A worker that is woken
  // ---------------------------------------------------------------------

  /** The worker that has taken its event and looks for work again. */
  function WokenUp(p: Pool, w: nat): Pool
    requires w < Size(p)
  {
    Put(Awake(p).(sleeping := p.sleeping - 1), w,
        p.workers[w].(pc := Scan, event := false, asleep := false, woken := true, left := CHECKS))
  }

  lemma LeavesWait(p: Pool, w: nat, held: set<nat>, victim: Option<nat>)
    requires Calm(p, w) && p.workers[w].pc.Wait? && p.workers[w].event && 1 <= p.sleeping <= Size(p)
    ensures WorkerAlone(p, w, held, victim, 3) ==
              Put(p.(sleeping := p.sleeping - 1), w, p.workers[w].(pc := FlagDown, event := false, woken := true))
  {
    var k := p.workers[w];
    var p1 := Put(p, w, k.(pc := SleepDown, event := false));
    var p2 := Put(p.(sleeping := p.sleeping - 1), w, k.(pc := WakeAssert, event := false));
    Extend(p, w, held, victim, 0, p, p1);
    Extend(p, w, held, victim, 1, p1, p2);
    Extend(p, w, held, victim, 2, p2,
           Put(p.(sleeping := p.sleeping - 1), w, k.(pc := FlagDown, event := false, woken := true)));
  }

  lemma SleeperCounted(p: Pool, w: nat)
    requires Inv(p) && w < Size(p) && p.workers[w].pc.Wait?
    ensures 1 <= p.sleeping <= Size(p)
  {
    TotalDominates(p.workers, Sleeping(), w);
    CountsBounded(p);
  }

  /**
   A worker whose event is set wakes up, takes the setting and looks for work
   again, if it moves alone; the last sleeper drops the requests.
   */
  lemma WakesAlone(p: Pool, w: nat, held: set<nat>, victim: Option<nat>) returns (n: nat)
    requires Inv(p) && Enabled(p, WorkerStep(w, victim)) && p.workers[w].pc.Wait?
    ensures WorkerAlone(p, w, held, victim, n) == WokenUp(p, w)
  {
    CalmIn(p, w);
    SleeperCounted(p, w);
    LeavesWait(p, w, held, victim);
    var p1 := WorkerAlone(p, w, held, victim, 3);
    n := LowersFlag(p1, w, held, victim);
    WorkerMore(p, w, held, victim, 3, n);
    n := n + 3;
    assert Put(Awake(p1), w, AfterWaking(p1.workers[w].(asleep := false))) == WokenUp(p, w);
  }

  // ---------------------------------------------------------------------
  // A worker with a coroutine in hand
  // ---------------------------------------------------------------------

  /** Bounds the accesses until the coroutine in hand is resumed. */
  function ToGo(p: Pool, w: nat): int
    requires w < Size(p)
  {
    var k := p.workers[w];
    match k.pc
    case Resume => 1 + Rank(Lone(p, k.call))
    case Normal => 6 * Size(p) + 20
    case FlagDown => 5
    case CountDown => 4
    case ZeroTest => 3
    case Reset => 2
    case _ => 0
  }

  lemma CarriesOn(p: Pool, w: nat, held: set<nat>, victim: Option<nat>)
    requires Inv(p) && !p.failed && w < Size(p) && p.workers[w].hand.Some? && !p.workers[w].pc.Busy?
    requires p.workers[w].call.pc.Return?
    ensures var p' := WorkerForward(p, w, held, victim);
            && Size(p') == Size(p) && p'.workers[w].hand == p.workers[w].hand && 0 <= ToGo(p', w) < ToGo(p, w)
  {
    assert WorkerFits(p, p.workers[w]);
  }

  lemma ToGoInCall(w: nat, x: Lone)
    requires w < Size(x.pool) && x.pool.workers[w].pc.Resume?
    ensures Size(ByWorker(w, x)) == Size(x.pool) && ToGo(ByWorker(w, x), w) == 1 + Rank(x)
    ensures ByWorker(w, x).workers[w].hand == x.pool.workers[w].hand
  {
  }

  lemma CallsOn(p: Pool, w: nat, held: set<nat>, victim: Option<nat>)
    requires Inv(p) && !p.failed && w < Size(p) && p.workers[w].hand.Some? && !p.workers[w].pc.Busy?
    requires !p.workers[w].call.pc.Return?
    ensures var p' := WorkerForward(p, w, held, victim);
            && Size(p') == Size(p) && p'.workers[w].hand == p.workers[w].hand && 0 <= ToGo(p', w) < ToGo(p, w)
  {
    var x := Lone(p, p.workers[w].call);
    assert WorkerFits(p, p.workers[w]) && ByWorker(w, x) == p;
    CountsBounded(p);
    SoundOn(x, Own, held);
    RankFalls(x, Own, held);
    WorkerAgrees(w, x, held, victim);
    CallKeepsWorker(x, w, held);
    ToGoInCall(w, x);
    ToGoInCall(w, Forward(x, Own, held));
  }

  lemma CallKeepsWorker(x: Lone, w: nat, held: set<nat>)
    requires w < Size(x.pool) && CallNext(x.pool, Own, x.call, Luck(x.call, held)).Some?
    ensures var p' := Forward(x, Own, held).pool;
            Size(p') == Size(x.pool) && p'.workers[w].hand == x.pool.workers[w].hand
                && p'.workers[w].pc == x.pool.workers[w].pc
  {
    EffectWorker(x.pool, x.call, Luck(x.call, held), w);
  }

  /**
   A worker with a coroutine in hand comes to be inside that coroutine by its own
   next accesses, whatever they find.
   */
  lemma {:induction false} HandIsRun(p: Pool, w: nat, held: set<nat>, victim: Option<nat>) returns (n: nat)
    requires Inv(p) && !p.failed && w < Size(p) && p.workers[w].hand.Some?
    ensures Size(WorkerAlone(p, w, held, victim, n)) == Size(p)
    ensures WorkerAlone(p, w, held, victim, n).workers[w].pc.Busy?
    ensures WorkerAlone(p, w, held, victim, n).workers[w].hand == p.workers[w].hand
    decreases ToGo(p, w)
  {
    if p.workers[w].pc.Busy? {
      n := 0;
    } else {
      var p' := WorkerForward(p, w, held, victim);
      Preserved(p, if p.workers[w].call.pc.Return? then WorkerStep(w, victim)
                else WorkerCall(w, Luck(p.workers[w].call, held)));
      if p.workers[w].call.pc.Return? {
        CarriesOn(p, w, held, victim);
      } else {
        CallsOn(p, w, held, victim);
      }
      n := HandIsRun(p', w, held, victim);
      WorkerMore(p, w, held, victim, 1, n);
      WorkerOnce(p, w, held, victim);
      n := n + 1;
    }
  }

  // ---------------------------------------------------------------------
  // A worker inside its coroutine
  // ---------------------------------------------------------------------

  /** A call that a worker makes inside its coroutine comes back to the coroutine. */
  lemma ComesBack(p: Pool, w: nat, held: set<nat>, victim: Option<nat>, call: Call, outcome: Pool, n: nat)
    returns (m: nat)
    requires Calm(p, w) && CallFits(p, call)
    requires Size(outcome) == Size(p) && outcome.workers[w].call == RETURNED
    requires var k := p.workers[w].(call := call);
             Alone(Lone(Put(p, w, k), call), Own, held, n) ==
                 Lone(outcome.(workers := outcome.workers[w := outcome.workers[w].(call := call)]), RETURNED)
    ensures WorkerAlone(Put(p, w, p.workers[w].(call := call)), w, held, victim, m) == outcome
  {
    var q := Put(p, w, p.workers[w].(call := call));
    var x := Lone(q, call);
    assert ByWorker(w, x) == q;
    m := WorkerRuns(w, x, held, victim, n);
    var busy := outcome.workers[w := outcome.workers[w].(call := call)];
    assert busy[w := busy[w].(call := RETURNED)] == outcome.workers;
  }

  /** The pool after a worker's coroutine has scheduled another one. */
  function Scheduled(p: Pool, w: nat, c: nat): Pool {
    if p.noLocal || w >= |p.local| then p.(queue := p.queue + [c])
    else p.(local := p.local[w := p.local[w] + [c]])
  }

  /**
   A coroutine that schedules another one on its own pool queues it and does
   what wakeOneThread does, if its worker moves alone.
   */
  lemma SchedulesAlone(p: Pool, w: nat, c: nat, held: set<nat>, victim: Option<nat>) returns (m: nat)
    requires Inv(p) && Enabled(p, WorkerAct(w, Schedule(c)))
    ensures WorkerAlone(Next(p, WorkerAct(w, Schedule(c))), w, held, victim, m)
         == WakeOutcome(Scheduled(p, w, c), Own, held)
  {
    CalmIn(p, w);
    assert WorkerFits(p, p.workers[w]);
    var q, call := Scheduled(p, w, c), RETURNED.(pc := Decide);
    var k := q.workers[w].(call := call);
    assert Next(p, WorkerAct(w, Schedule(c))) == Put(q, w, k);
    WakeSpares(q, w, k, Own, held);
    var n := WakeAlone(Put(q, w, k), Own, held);
    m := ComesBack(q, w, held, victim, call, WakeOutcome(q, Own, held), n);
  }

  /** A coroutine that processes pending requests turns one into an attempt to wake somebody. */
  lemma ProcessesAlone(p: Pool, w: nat, held: set<nat>, victim: Option<nat>) returns (m: nat)
    requires Inv(p) && Enabled(p, WorkerAct(w, Process))
    ensures WorkerAlone(Next(p, WorkerAct(w, Process)), w, held, victim, m) == ProcessOutcome(p, Own, held)
  {
    CalmIn(p, w);
    assert WorkerFits(p, p.workers[w]);
    var call := RETURNED.(pc := ProcessAssert);
    var k := p.workers[w].(call := call);
    ProcessSpares(p, w, k, held);
    var n := ProcessAlone(Put(p, w, k), Own, held);
    m := ComesBack(p, w, held, victim, call, ProcessOutcome(p, Own, held), n);
  }
}
