/** Where the coroutines are that were scheduled onto the pool. */
module ThreadPoolWork {
  import opened Tally
  import opened ThreadPool
  import opened ThreadPoolProof
  import opened ThreadPoolTheorems

  /** A run so far: the coroutines scheduled, those the workers resumed, and those they came back from. */
  datatype History = History(
    pool: Pool, scheduled: multiset<nat>, resumed: multiset<nat>, finished: multiset<nat>)

  function Held(c: Option<nat>): multiset<nat> {
    match c
    case None => multiset{}
    case Some(value) => multiset{value}
  }

  function ScheduledBy(p: Pool, m: Move): multiset<nat> {
    if !Enabled(p, m) then multiset{}
    else if m.Enqueue? then multiset{m.coroutine}
    else if m.WorkerAct? && m.action.Schedule? then multiset{m.action.coroutine}
    else multiset{}
  }

  /** A worker that comes to be inside resume. */
  function ResumedBy(p: Pool, m: Move): multiset<nat> {
    if Enabled(p, m) && m.WorkerStep? && m.w < Size(Next(p, m)) && Next(p, m).workers[m.w].pc.Busy?
    then Held(Next(p, m).workers[m.w].hand)
    else multiset{}
  }

  function FinishedBy(p: Pool, m: Move): multiset<nat> {
    if Enabled(p, m) && m.WorkerAct? && m.action.Finish? then Held(p.workers[m.w].hand) else multiset{}
  }

  function Advance(h: History, m: Move): History {
    History(Next(h.pool, m), h.scheduled + ScheduledBy(h.pool, m), h.resumed + ResumedBy(h.pool, m),
            h.finished + FinishedBy(h.pool, m))
  }

  function Record(p: Pool, moves: seq<Move>): History {
    if moves == [] then History(p, multiset{}, multiset{}, multiset{})
    else Advance(Record(p, moves[..|moves| - 1]), moves[|moves| - 1])
  }

  // ---------------------------------------------------------------------
  // Where they are
  // ---------------------------------------------------------------------

  function Elements(): seq<nat> -> multiset<nat> {
    (q: seq<nat>) => multiset(q)
  }

  /** What a worker has found and not resumed yet. */
  function InHand(): Worker -> multiset<nat> {
    (k: Worker) => if k.pc.Busy? then multiset{} else Held(k.hand)
  }

  function Running(): Worker -> multiset<nat> {
    (k: Worker) => if k.pc.Busy? then Held(k.hand) else multiset{}
  }

  /** In the global queue or in the queue of a worker. */
  ghost function Queued(p: Pool): multiset<nat> {
    multiset(p.queue) + Gather(p.local, Elements())
  }

  ghost function Hands(p: Pool): multiset<nat> {
    Gather(p.workers, InHand())
  }

  ghost function Runs(p: Pool): multiset<nat> {
    Gather(p.workers, Running())
  }

  ghost predicate Accounted(h: History) {
    && h.scheduled == Queued(h.pool) + Hands(h.pool) + h.resumed
    && h.resumed == Runs(h.pool) + h.finished
  }

  /** One move moves coroutines from one place to the next. */
  ghost predicate Flows(p: Pool, p': Pool, scheduled: multiset<nat>, resumed: multiset<nat>, finished: multiset<nat>) {
    && Queued(p) + Hands(p) + scheduled == Queued(p') + Hands(p') + resumed
    && Runs(p) + resumed == Runs(p') + finished
  }

  lemma AccountedStep(h: History, m: Move)
    requires Accounted(h)
    requires Flows(h.pool, Next(h.pool, m), ScheduledBy(h.pool, m), ResumedBy(h.pool, m), FinishedBy(h.pool, m))
    ensures Accounted(Advance(h, m))
  {
    var p, p' := h.pool, Next(h.pool, m);
    var put, taken, ended := ScheduledBy(p, m), ResumedBy(p, m), FinishedBy(p, m);
    Carry(h.scheduled, Queued(p) + Hands(p), h.resumed, put, Queued(p') + Hands(p'), taken);
    Carry(h.resumed, Runs(p), h.finished, taken, Runs(p'), ended);
  }

  lemma Carry(all: multiset<nat>, here: multiset<nat>, gone: multiset<nat>, more: multiset<nat>, here': multiset<nat>,
              leave: multiset<nat>)
    requires all == here + gone && here + more == here' + leave
    ensures all + more == here' + (gone + leave)
  {
    assert all + more == (here + more) + gone;
  }

  // ---------------------------------------------------------------------
  // One move
  // ---------------------------------------------------------------------

  /** A sum with one part replaced by another. */
  lemma Swapped(x: multiset<nat>, y: multiset<nat>, out: multiset<nat>, into: multiset<nat>)
    requires x + out == y + into
    ensures out == into ==> x == y
    ensures out == multiset{} ==> x == y + into
    ensures into == multiset{} ==> x + out == y
  {
    assert out == multiset{} ==> x == x + out;
    assert into == multiset{} ==> y == y + into;
    if out == into {
      assert x == (x + out) - out;
      assert y == (y + into) - into;
    }
  }

  lemma Changes(p: Pool, p': Pool, w: nat, k: Worker)
    requires w < |p.workers| && p'.workers == p.workers[w := k]
    ensures Hands(p') + InHand()(p.workers[w]) == Hands(p) + InHand()(k)
    ensures Runs(p') + Running()(p.workers[w]) == Runs(p) + Running()(k)
  {
    GatherUpdate(p.workers, InHand(), w, k);
    GatherUpdate(p.workers, Running(), w, k);
  }

  lemma SameHands(p: Pool, p': Pool, w: nat, k: Worker)
    requires w < |p.workers| && p'.workers == p.workers[w := k]
    requires k.hand == p.workers[w].hand && k.pc.Busy? == p.workers[w].pc.Busy?
    ensures Hands(p') == Hands(p) && Runs(p') == Runs(p)
  {
    Changes(p, p', w, k);
    Swapped(Hands(p'), Hands(p), InHand()(p.workers[w]), InHand()(k));
    Swapped(Runs(p'), Runs(p), Running()(p.workers[w]), Running()(k));
  }

  /** A worker that keeps what it has. */
  lemma Keeps(p: Pool, p': Pool, w: nat, k: Worker)
    requires w < |p.workers| && p'.workers == p.workers[w := k] && p'.queue == p.queue && p'.local == p.local
    requires k.hand == p.workers[w].hand && k.pc.Busy? == p.workers[w].pc.Busy?
    ensures Flows(p, p', multiset{}, multiset{}, multiset{})
  {
    SameHands(p, p', w, k);
  }

  /** A find takes one coroutine from the queues. */
  lemma FindTakes(p: Pool, w: nat, victim: Option<nat>, find: Option<Find>)
    requires find == TryRemote(p, victim) || find == TryWork(p, w, victim)
    requires find.Some?
    ensures Queued(p) == Queued(find.value.pool) + multiset{find.value.coroutine}
    ensures find.value.pool.workers == p.workers
  {
    if find == Some(find.value) && p.queue != [] && find.value == FromQueue(p) {
      assert p.queue == [p.queue[0]] + p.queue[1..];
    } else {
      var j :| HasLocal(p, j) && find.value == FromLocal(p, j);
      LocalTakes(p, j);
    }
  }

  lemma LocalTakes(p: Pool, j: nat)
    requires HasLocal(p, j)
    ensures Queued(p) == Queued(FromLocal(p, j).pool) + multiset{FromLocal(p, j).coroutine}
  {
    var q := p.local[j];
    assert q == [q[0]] + q[1..];
    GatherUpdate(p.local, Elements(), j, q[1..]);
  }

  lemma Finds(p: Pool, w: nat, victim: Option<nat>, find: Option<Find>, k: Worker)
    requires find == TryRemote(p, victim) || find == TryWork(p, w, victim)
    requires find.Some? && w < |p.workers|
    requires p.workers[w].hand.None? && !p.workers[w].pc.Busy? && !k.pc.Busy? && k.hand == Some(find.value.coroutine)
    ensures |find.value.pool.workers| == |p.workers|
    ensures Flows(p, Put(find.value.pool, w, k), multiset{}, multiset{}, multiset{})
  {
    FindTakes(p, w, victim, find);
    var p' := Put(find.value.pool, w, k);
    Changes(p, p', w, k);
    Swapped(Hands(p'), Hands(p), InHand()(p.workers[w]), InHand()(k));
    Swapped(Runs(p'), Runs(p), Running()(p.workers[w]), Running()(k));
    assert Queued(p') == Queued(find.value.pool);
    Given(Queued(p), Queued(p'), Hands(p), Hands(p'), multiset{find.value.coroutine});
  }

  lemma Given(q: multiset<nat>, q': multiset<nat>, h: multiset<nat>, h': multiset<nat>, c: multiset<nat>)
    requires q == q' + c && h' == h + c
    ensures q + h + multiset{} == q' + h' + multiset{}
  {
  }

  lemma Passed(q: multiset<nat>, h: multiset<nat>, h': multiset<nat>, r: multiset<nat>, r': multiset<nat>,
      c: multiset<nat>)
    requires h' + c == h && r' == r + c
    ensures q + h + multiset{} == q + h' + c && r + c == r' + multiset{}
  {
  }

  /** A worker that looks has nothing in hand. */
  lemma LookFlows(p: Pool, w: nat, victim: Option<nat>)
    requires w < |p.workers| && WorkerFits(p, p.workers[w])
    requires p.workers[w].pc.Work? || p.workers[w].pc.Scan? || p.workers[w].pc.LastScan?
    ensures Flows(p, Access(p, w, victim), multiset{}, multiset{}, multiset{})
    ensures |Access(p, w, victim).workers| == |p.workers| && !Access(p, w, victim).workers[w].pc.Busy?
  {
    var k := p.workers[w];
    var find := if k.pc.Work? then TryWork(p, w, victim) else TryRemote(p, victim);
    if find.Some? {
      FindTakes(p, w, victim, find);
      Finds(p, w, victim, find, Access(p, w, victim).workers[w]);
    } else {
      Keeps(p, Access(p, w, victim), w, Access(p, w, victim).workers[w]);
    }
  }

  lemma ResumeFlows(p: Pool, w: nat, victim: Option<nat>)
    requires w < |p.workers| && WorkerFits(p, p.workers[w]) && p.workers[w].pc.Resume?
    ensures var p' := Access(p, w, victim);
            |p'.workers| == |p.workers|
                && Flows(p, p', multiset{}, if p'.workers[w].pc.Busy? then Held(p'.workers[w].hand)
                     else multiset{}, multiset{})
  {
    var p' := Access(p, w, victim);
    var k, k' := p.workers[w], p'.workers[w];
    Changes(p, p', w, k');
    assert Queued(p') == Queued(p);
    if k.hand.Some? {
      assert InHand()(k) == Running()(k') == Held(k.hand) && InHand()(k') == Running()(k) == multiset{};
      Swapped(Hands(p'), Hands(p), InHand()(k), InHand()(k'));
      Swapped(Runs(p'), Runs(p), Running()(k), Running()(k'));
      Passed(Queued(p), Hands(p), Hands(p'), Runs(p), Runs(p'), Held(k.hand));
    } else {
      SameHands(p, p', w, k');
    }
  }

  /** The worker keeps what it has, and the queues are left alone. */
  ghost predicate Quiet(p: Pool, p': Pool, w: nat) {
    && w < |p.workers| == |p'.workers| && p'.workers == p.workers[w := p'.workers[w]]
    && p'.queue == p.queue && p'.local == p.local
    && p'.workers[w].hand == p.workers[w].hand && !p'.workers[w].pc.Busy?
  }

  lemma GoingToSleep(p: Pool, w: nat, victim: Option<nat>)
    requires w < |p.workers|
    requires var pc := p.workers[w].pc;
             pc.PendingTest? || pc.SleepTest? || pc.FlagUp? || pc.CountUp? || pc.SleepAssert? || pc.SleepUp?
    ensures Quiet(p, Access(p, w, victim), w)
  {
  }

  lemma WakingUp(p: Pool, w: nat, victim: Option<nat>)
    requires w < |p.workers|
    requires var pc := p.workers[w].pc;
             pc.Wait? || pc.SleepDown? || pc.WakeAssert? || pc.FlagDown? || pc.CountDown? || pc.ZeroTest? || pc.Reset?
             || pc.Normal?
    ensures Quiet(p, Access(p, w, victim), w)
  {
  }

  lemma AccessFlows(p: Pool, m: Move)
    requires Inv(p) && m.WorkerStep? && Enabled(p, m)
    ensures Flows(p, Next(p, m), ScheduledBy(p, m), ResumedBy(p, m), FinishedBy(p, m))
  {
    assert WorkerFits(p, p.workers[m.w]);
    var pc := p.workers[m.w].pc;
    if pc.Work? || pc.Scan? || pc.LastScan? {
      LookFlows(p, m.w, m.victim);
    } else if pc.Resume? {
      ResumeFlows(p, m.w, m.victim);
    } else {
      if pc.PendingTest? || pc.SleepTest? || pc.FlagUp? || pc.CountUp? || pc.SleepAssert? || pc.SleepUp? {
        GoingToSleep(p, m.w, m.victim);
      } else {
        WakingUp(p, m.w, m.victim);
      }
      Keeps(p, Next(p, m), m.w, Next(p, m).workers[m.w]);
    }
  }

  /** A call may set an event, and moves no coroutine. */
  lemma EffectShape(p: Pool, c: Call, luck: bool) returns (w: nat, k: Worker)
    requires |p.workers| >= 1
    ensures w < |p.workers| && CallEffect(p, c, luck).workers == p.workers[w := k]
    ensures k.hand == p.workers[w].hand && k.pc == p.workers[w].pc
    ensures CallEffect(p, c, luck).queue == p.queue && CallEffect(p, c, luck).local == p.local
  {
    if c.pc.LoopSet? && c.i < Size(p) && (c.immediate || luck) {
      w, k := c.i, p.workers[c.i].(event := true);
    } else {
      w, k := 0, p.workers[0];
    }
  }

  lemma EffectFlows(p: Pool, c: Call, luck: bool)
    requires |p.workers| >= 1
    ensures Flows(p, CallEffect(p, c, luck), multiset{}, multiset{}, multiset{})
    ensures |CallEffect(p, c, luck).workers| == |p.workers|
  {
    var w, k := EffectShape(p, c, luck);
    Keeps(p, CallEffect(p, c, luck), w, k);
  }

  /** Flows look only at the queues and at the workers. */
  lemma SamePlaces(p: Pool, p': Pool, p'': Pool)
    requires Flows(p, p', multiset{}, multiset{}, multiset{})
    requires p''.workers == p'.workers && p''.queue == p'.queue && p''.local == p'.local
    ensures Flows(p, p'', multiset{}, multiset{}, multiset{})
  {
  }

  lemma Still(p: Pool, p': Pool)
    requires Flows(p, p', multiset{}, multiset{}, multiset{})
    ensures Queued(p) + Hands(p) == Queued(p') + Hands(p') && Runs(p) == Runs(p')
  {
    assert Queued(p) + Hands(p) == Queued(p) + Hands(p) + multiset{} == Queued(p') + Hands(p') + multiset{};
    assert Runs(p) == Runs(p) + multiset{} == Runs(p') + multiset{};
  }

  lemma Twice(p: Pool, p': Pool, p'': Pool)
    requires Flows(p, p', multiset{}, multiset{}, multiset{}) && Flows(p', p'', multiset{}, multiset{}, multiset{})
    ensures Flows(p, p'', multiset{}, multiset{}, multiset{})
  {
    Still(p, p');
    Still(p', p'');
  }

  lemma CallerFlows(p: Pool, o: nat, luck: bool)
    requires Inv(p) && Enabled(p, CallerStep(o, luck))
    ensures Flows(p, CallStep(p, o, luck), multiset{}, multiset{}, multiset{})
  {
    EffectFlows(p, p.callers[o].call, luck);
    SamePlaces(p, if CallNext(p, p.callers[o].kind, p.callers[o].call, luck).None? then p
               else CallEffect(p, p.callers[o].call, luck), CallStep(p, o, luck)) by {
      assert Flows(p, p, multiset{}, multiset{}, multiset{});
    }
  }

  lemma EnqueueFlows(p: Pool, m: Move)
    requires m.Enqueue? && Enabled(p, m)
    ensures Flows(p, Next(p, m), multiset{m.coroutine}, multiset{}, multiset{})
  {
    assert multiset(p.queue + [m.coroutine]) == multiset(p.queue) + multiset{m.coroutine};
    assert Queued(Next(p, m)) == Queued(p) + multiset{m.coroutine};
  }

  lemma OwnCallFlows(p: Pool, w: nat, luck: bool)
    requires Inv(p) && Enabled(p, WorkerCall(w, luck))
    ensures Flows(p, OwnCallStep(p, w, luck), multiset{}, multiset{}, multiset{})
  {
    EffectFlows(p, p.workers[w].call, luck);
    match CallNext(p, Own, p.workers[w].call, luck)
    case None =>
    case Some(c) =>
      var p' := CallEffect(p, p.workers[w].call, luck);
      Keeps(p', OwnCallStep(p, w, luck), w, p'.workers[w].(call := c));
      Twice(p, p', OwnCallStep(p, w, luck));
  }

  lemma EnqueuesLocal(p: Pool, w: nat, c: nat)
    requires w < |p.local|
    ensures Queued(EnqueueLocal(p, w, c)) == Queued(p) + multiset{c}
  {
    GatherUpdate(p.local, Elements(), w, p.local[w] + [c]);
    assert multiset(p.local[w] + [c]) == multiset(p.local[w]) + multiset{c};
  }

  lemma Enqueues(p: Pool, w: nat, c: nat)
    requires w < |p.local| == |p.workers|
    ensures Queued(Act(p, w, Schedule(c))) == Queued(p) + multiset{c}
  {
    EnqueuesLocal(p, w, c);
    assert multiset(p.queue + [c]) == multiset(p.queue) + multiset{c};
  }

  lemma ScheduleFlows(p: Pool, w: nat, c: nat)
    requires Inv(p) && Enabled(p, WorkerAct(w, Schedule(c)))
    ensures Flows(p, Act(p, w, Schedule(c)), multiset{c}, multiset{}, multiset{})
  {
    var p' := Act(p, w, Schedule(c));
    var k := p.workers[w].(call := RETURNED.(pc := Decide));
    Enqueues(p, w, c);
    assert p'.workers == p.workers[w := k];
    SameHands(p, p', w, k);
    More(p, p', multiset{c});
  }

  lemma More(p: Pool, p': Pool, more: multiset<nat>)
    requires Hands(p') == Hands(p) && Runs(p') == Runs(p) && Queued(p') == Queued(p) + more
    ensures Flows(p, p', more, multiset{}, multiset{})
  {
  }

  lemma FinishFlows(p: Pool, w: nat)
    requires Inv(p) && Enabled(p, WorkerAct(w, Finish))
    ensures Flows(p, Act(p, w, Finish), multiset{}, multiset{}, Held(p.workers[w].hand))
  {
    var p' := Act(p, w, Finish);
    var k, k' := p.workers[w], p'.workers[w];
    Changes(p, p', w, k');
    assert Queued(p') == Queued(p);
    assert InHand()(k) == InHand()(k') == Running()(k') == multiset{} && Running()(k) == Held(k.hand);
    Swapped(Hands(p'), Hands(p), InHand()(k), InHand()(k'));
    Swapped(Runs(p'), Runs(p), Running()(k), Running()(k'));
    assert Runs(p) == Runs(p) + multiset{};
  }

  lemma ProcessFlows(p: Pool, w: nat)
    requires Inv(p) && Enabled(p, WorkerAct(w, Process))
    ensures Flows(p, Act(p, w, Process), multiset{}, multiset{}, multiset{})
  {
    Keeps(p, Act(p, w, Process), w, p.workers[w].(call := RETURNED.(pc := ProcessAssert)));
  }

  lemma ActFlows(p: Pool, m: Move)
    requires Inv(p) && m.WorkerAct? && Enabled(p, m)
    ensures Flows(p, Next(p, m), ScheduledBy(p, m), ResumedBy(p, m), FinishedBy(p, m))
  {
    match m.action
    case Schedule(c) => ScheduleFlows(p, m.w, c);
    case Process => ProcessFlows(p, m.w);
    case Finish => FinishFlows(p, m.w);
  }

  lemma MoveFlows(p: Pool, m: Move)
    requires Inv(p)
    ensures Flows(p, Next(p, m), ScheduledBy(p, m), ResumedBy(p, m), FinishedBy(p, m))
  {
    if Enabled(p, m) {
      match m
      case WorkerStep(w, _) => AccessFlows(p, m);
      case WorkerAct(w, _) => ActFlows(p, m);
      case WorkerCall(w, luck) => OwnCallFlows(p, w, luck);
      case Enqueue(o, c) => EnqueueFlows(p, m);
      case CallerStep(o, luck) => CallerFlows(p, o, luck);
    } else {
      assert Next(p, m) == p;
    }
  }

  lemma NothingYet(p: Pool)
    requires Initial(p)
    ensures Accounted(Record(p, []))
  {
    GatherNothing(p.local, Elements());
    GatherNothing(p.workers, InHand());
    GatherNothing(p.workers, Running());
  }

  /**
   In every run, the coroutines scheduled are those in the global queue, those
   in the workers' queues, those in a worker's hand and those that workers have
   resumed; and of these a worker is inside the last one it resumed.
   */
  lemma {:induction false} WorkConserved(p: Pool, moves: seq<Move>)
    requires Initial(p)
    ensures Accounted(Record(p, moves)) && Record(p, moves).pool == Execute(p, moves)
  {
    if moves == [] {
      NothingYet(p);
    } else {
      var before := moves[..|moves| - 1];
      WorkConserved(p, before);
      Reachable(p, before);
      MoveFlows(Execute(p, before), moves[|moves| - 1]);
      AccountedStep(Record(p, before), moves[|moves| - 1]);
    }
  }

  /** The front of the queue goes, or the front of one worker's queue; all else stays. */
  ghost predicate TakesFront(p: Pool, f: Find, j: Option<nat>) {
    match j
    case None => p.queue == [f.coroutine] + f.pool.queue && f.pool == p.(queue := f.pool.queue)
    case Some(u) =>
      && u < |p.local| == |f.pool.local|
      && p.local[u] == [f.coroutine] + f.pool.local[u]
      && f.pool == p.(local := p.local[u := f.pool.local[u]])
  }

  predicate Empty(p: Pool, u: nat) {
    u >= |p.local| || p.local[u] == []
  }

  /**
   A look finds the front of the global queue; with that empty, and work that may
   be local, the front of the queue of the worker it tries; otherwise nothing.
   */
  lemma LookExactly(p: Pool, victim: Option<nat>)
    ensures var find := TryRemote(p, victim);
            if p.queue != [] then find.Some? && TakesFront(p, find.value, None)
            else if !p.noLocal && victim.Some? && !Empty(p, victim.value) then
              find.Some? && TakesFront(p, find.value, victim)
            else find.None?
  {
  }

  /** A worker that looks for work finds its own, if it looks there first or nothing elsewhere. */
  lemma OwnLookExactly(p: Pool, w: nat, victim: Option<nat>)
    ensures var find, other := TryWork(p, w, victim), TryRemote(p, victim);
            if Empty(p, w) || (victim != Some(w) && other.Some?) then find == other
            else find.Some? && TakesFront(p, find.value, Some(w))
  {
  }

  /** A worker that has work in its own queue is running a coroutine, about to, or about to look there. */
  lemma {:induction false} OwnWorkIsSeen(p: Pool, moves: seq<Move>, w: nat)
    requires Initial(p)
    requires HasLocal(Execute(p, moves), w)
    ensures w < Size(Execute(p, moves))
    ensures var pc := Execute(p, moves).workers[w].pc; pc.Work? || pc.Busy? || pc.Resume?
  {
    Reachable(p, moves);
    assert LocalFits(Execute(p, moves).workers[w], Execute(p, moves).local[w]);
  }
}
