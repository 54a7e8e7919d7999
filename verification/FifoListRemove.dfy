/**
 `remove` on the list machine: one thread runs its loop of dequeues and enqueues,
 one atomic access at a time, among any number of threads that do as they like.
 */
module FifoListRemove {
  import opened Tally
  import opened FifoList
  import opened FifoListProof
  import opened FifoListTheorems
  import opened FifoListAlone
  import opened FifoListObject

  datatype Stage =
    | Ready                     // uint64_t initialCount = m_count
    | Looking                   // i < 2 * initialCount
    | Taking                    // inside auto* node = dequeue()
    | Putting                   // inside enqueue(node)
    | Returned(found: bool)

  /** Thread `self` of the list runs remove(target), with `left` turns to go. */
  datatype Removal = Removal(list: List, self: nat, target: nat, left: nat, stage: Stage)

  /**
   Another thread moves, or the one inside remove makes its next access (`weak`:
   a weak exchange fails spuriously).
   */
  datatype Action = Other(move: Move) | Own(weak: bool)

  predicate Possible(r: Removal, a: Action) {
    match a
    case Other(m) => m.thread != r.self
    case Own(_) => r.self < |r.list.threads| && !r.stage.Returned? && (r.stage.Ready? ==> r.list.threads[r.self].Idle?)
  }

  /** The loop goes on when its dequeue or enqueue has returned. */
  function AfterReply(r: Removal, reply: seq<Entry>): Removal {
    if reply == [] then r else
    match reply[0].op
    case Miss => r.(stage := Returned(false))
    case Take(n) =>
      if n == r.target then r.(stage := Returned(true))
      else r.(list := Next(r.list, Begin(r.self, Enqueue(n))), stage := Putting)
    case Put(_) => r.(left := if r.left > 0 then r.left - 1 else 0, stage := Looking)
  }

  function Act(r: Removal, a: Action): Removal {
    if !Possible(r, a) then r else
    match a
    case Other(m) => r.(list := Next(r.list, m))
    case Own(weak) =>
      match r.stage
      case Ready => r.(left := 2 * r.list.count % WORD, stage := Looking)
      case Looking =>
        if r.left == 0 then r.(stage := Returned(false))
        else r.(list := Next(r.list, Begin(r.self, Dequeue)), stage := Taking)
      case _ => AfterReply(r.(list := Next(r.list, Step(r.self, weak))), ReplyOf(r.list, Step(r.self, weak)))
  }

  // ---------------------------------------------------------------------
  // What the specification remembers
  // ---------------------------------------------------------------------

  /**
   `start` and `counted`: the queue when the count was read, and what was read;
   `lagging`: an enqueue was then past its tail exchange and not counted;
   `quiet`: no other operation has taken effect since.
   */
  datatype Memory = Memory(view: View, start: seq<nat>, counted: int, lagging: bool, quiet: bool)

  function Turns(m: Memory): nat {
    2 * m.counted % WORD
  }

  predicate NotCounted(pc: Pc) {
    pc.Link? || pc.PublishFirst? || pc.CountUp?
  }

  predicate Lagging(l: List) {
    exists t :: 0 <= t < |l.threads| && NotCounted(l.threads[t])
  }

  function Watch(r: Removal, m: Memory, a: Action): Memory {
    if !Possible(r, a) then m else
    match a
    case Other(move) => m.(view := Track(r.list, m.view, move), quiet := m.quiet && EffectOf(r.list, move) == [])
    case Own(weak) =>
      if r.stage.Ready? then Memory(m.view, m.view.queue, r.list.count, Lagging(r.list), true)
      else if r.stage.Looking? then m
      else m.(view := Track(r.list, m.view, Step(r.self, weak)))
  }

  datatype Run = Run(removal: Removal, memory: Memory)

  function Execute(r: Removal, actions: seq<Action>): Run {
    if actions == [] then Run(r, Memory(View([], NoClaim), [], 0, false, true)) else
    var run := Execute(r, actions[..|actions| - 1]);
    var a := actions[|actions| - 1];
    Run(Act(run.removal, a), Watch(run.removal, run.memory, a))
  }

  // ---------------------------------------------------------------------
  // The invariant
  // ---------------------------------------------------------------------

  predicate InDequeue(pc: Pc) {
    Before(pc) || Claiming(pc) || pc.ClearNext? || pc.CountDown?
  }

  predicate InEnqueue(pc: Pc) {
    pc.ResetNext? || pc.SwapTail? || pc.Link? || pc.PublishFirst? || pc.CountUp?
  }

  /** Where the thread is, and that there is a turn left for what it is doing. */
  predicate Located(r: Removal) {
    r.self < |r.list.threads| &&
    var pc := r.list.threads[r.self];
    match r.stage
    case Ready => pc.Idle?
    case Looking => pc.Idle?
    case Taking => InDequeue(pc) && r.left > 0
    case Putting => InEnqueue(pc) && r.left > 0
    case Returned(_) => pc.Idle?
  }

  /** What the rest of the rotation comes to from here, when nobody else interferes. */
  function Outcome(r: Removal, q: seq<nat>): (bool, seq<nat>)
    requires Located(r)
  {
    var pc := r.list.threads[r.self];
    match r.stage
    case Ready => (false, q)
    case Looking => RemoveFrom(q, r.target, r.left)
    case Taking =>
      if Before(pc) then RemoveFrom(q, r.target, r.left)
      else if Held(pc) == r.target then (true, q)
      else RemoveFrom(q + [Held(pc)], r.target, r.left - 1)
    case Putting =>
      if pc.ResetNext? || pc.SwapTail? then RemoveFrom(q + [Held(pc)], r.target, r.left - 1)
      else RemoveFrom(q, r.target, r.left - 1)
    case Returned(found) => (found, q)
  }

  /** What was true when the count was read. */
  ghost predicate Recorded(m: Memory, threads: nat) {
    Distinct(m.start) && (!m.lagging && |m.start| + threads < WORD / 2 ==> |m.start| <= m.counted < WORD / 2)
  }

  ghost predicate Agrees(r: Removal, m: Memory) {
    && Inv(r.list, m.view) && Located(r) && Recorded(m, |r.list.threads|)
    && (m.quiet && !r.stage.Ready? ==> Outcome(r, m.view.queue) == RemoveFrom(m.start, r.target, Turns(m)))
  }

  /** A move that keeps the outcome, as long as it is quiet, keeps the agreement. */
  lemma OutcomeAgrees(r: Removal, m: Memory, r': Removal, view: View, quiet: bool)
    requires Agrees(r, m) && Inv(r'.list, view) && Located(r') && |r'.list.threads| == |r.list.threads|
    requires r'.target == r.target && r'.stage.Ready? == r.stage.Ready? && (quiet ==> m.quiet)
    requires quiet && !r.stage.Ready? ==> Outcome(r', view.queue) == Outcome(r, m.view.queue)
    ensures Agrees(r', m.(view := view, quiet := quiet))
  {
  }

  lemma OtherAgrees(r: Removal, m: Memory, move: Move)
    requires Agrees(r, m) && Possible(r, Other(move))
    ensures Agrees(Act(r, Other(move)), Watch(r, m, Other(move)))
  {
    var r' := r.(list := Next(r.list, move));
    Preserved(r.list, m.view, move);
    OthersStay(r.list, move, r.self);
    SameOutcome(r, r', m.view.queue);
    if EffectOf(r.list, move) == [] {
      NoEffect(r.list, m.view, move);
    }
    OutcomeAgrees(r, m, r', Track(r.list, m.view, move), m.quiet && EffectOf(r.list, move) == []);
  }

  lemma SameOutcome(r: Removal, r': Removal, q: seq<nat>)
    requires Located(r) && r' == r.(list := r'.list) && |r'.list.threads| == |r.list.threads|
    requires r'.list.threads[r.self] == r.list.threads[r.self]
    ensures Located(r') && Outcome(r', q) == Outcome(r, q)
  {
  }

  /** The queue changes only when an operation takes effect. */
  lemma NoEffect(l: List, v: View, m: Move)
    requires Inv(l, v) && EffectOf(l, m) == []
    ensures Track(l, v, m).queue == v.queue
  {
  }

  /**
   With every enqueue counted, the count is at least the length of the queue, and
   at most one more for each thread.
   */
  lemma CountCovers(l: List, v: View)
    requires Inv(l, v)
    ensures !Lagging(l) && |v.queue| + |l.threads| < WORD / 2 ==> |v.queue| <= l.count < WORD / 2
  {
    if !Lagging(l) {
      forall t | 0 <= t < |l.threads|
        ensures 0 <= Uncounted(l.threads[t]) <= 1
      {
        assert !NotCounted(l.threads[t]);
      }
      TotalBound(l.threads, Uncounted, 0, 1);
    }
  }

  lemma LoopAgrees(r: Removal, m: Memory, weak: bool)
    requires Agrees(r, m) && Possible(r, Own(weak)) && (r.stage.Ready? || r.stage.Looking?)
    ensures Agrees(Act(r, Own(weak)), Watch(r, m, Own(weak)))
  {
    if r.stage.Ready? {
      CountCovers(r.list, m.view);
    } else if r.left > 0 {
      Preserved(r.list, m.view, Begin(r.self, Dequeue));
    }
  }

  /** The effects of the thread itself on the queue. */
  lemma OwnEffect(l: List, v: View, t: nat, weak: bool)
    requires Inv(l, v) && t < |l.threads| && !l.threads[t].Idle?
    ensures var pc, q, q' := l.threads[t], v.queue, Track(l, v, Step(t, weak)).queue;
            if pc.SwapTail? then q' == q + [pc.node]
            else if pc.CasHead? && l.head == pc.top && !weak then q != [] && pc.top == q[0] && q' == q[1..]
            else q' == q
    ensures (l.threads[t].CheckTail? || l.threads[t].SpinTail?) && l.tail == NULL ==> v.queue == []
  {
    assert Knows(l, v, l.threads[t]);
    EmptyTail(l, v);
  }

  /** What an access inside a dequeue that has not claimed a node to return does to the removal. */
  lemma TakingActs(r: Removal, weak: bool)
    requires Possible(r, Own(weak)) && r.stage.Taking?
    requires r.self < |r.list.threads| == |Next(r.list, Step(r.self, weak)).threads|
    requires InDequeue(r.list.threads[r.self]) && !r.list.threads[r.self].CountDown?
    ensures var l', pc := Next(r.list, Step(r.self, weak)), r.list.threads[r.self];
            Act(r, Own(weak)) ==
              if (pc.CheckTail? || pc.SpinTail?) && r.list.tail == NULL
                  then r.(list := l', stage := Returned(false)) else r.(list := l')
  {
    TakingStep(r.list, r.self, weak);
  }

  lemma TakingKeeps(r: Removal, m: Memory, weak: bool)
    requires Inv(r.list, m.view) && Located(r) && Possible(r, Own(weak)) && r.stage.Taking?
    requires !r.list.threads[r.self].CountDown?
    ensures var r', v' := Act(r, Own(weak)), Track(r.list, m.view, Step(r.self, weak));
            Located(r') && |r'.list.threads| == |r.list.threads| && Outcome(r', v'.queue) == Outcome(r, m.view.queue)
            && r'.target == r.target && !r'.stage.Ready? && r'.list == Next(r.list, Step(r.self, weak))
  {
    OwnEffect(r.list, m.view, r.self, weak);
    SameThreads(r.list, Step(r.self, weak));
    TakingActs(r, weak);
    TakingStep(r.list, r.self, weak);
    TakeOutcome(r, r.(list := Next(r.list, Step(r.self, weak))), m.view.queue,
        Track(r.list, m.view, Step(r.self, weak)).queue, weak);
  }

  lemma TakingAgrees(r: Removal, m: Memory, weak: bool)
    requires Agrees(r, m) && Possible(r, Own(weak)) && r.stage.Taking? && !r.list.threads[r.self].CountDown?
    ensures Agrees(Act(r, Own(weak)), Watch(r, m, Own(weak)))
  {
    TakingKeeps(r, m, weak);
    Preserved(r.list, m.view, Step(r.self, weak));
    OutcomeAgrees(r, m, Act(r, Own(weak)), Track(r.list, m.view, Step(r.self, weak)), m.quiet);
  }

  /** An access of a dequeue keeps the outcome, whether it claims, misses or looks. */
  lemma TakeOutcome(r: Removal, r': Removal, q: seq<nat>, q': seq<nat>, weak: bool)
    requires Located(r) && r.stage.Taking? && r' == r.(list := r'.list) && r.self < |r'.list.threads|
    requires var l, pc, pc' := r.list, r.list.threads[r.self], r'.list.threads[r.self];
             && !pc.CountDown?
             && (if pc.CasHead? && l.head == pc.top && !weak then q != [] && pc.top == q[0] && q' == q[1..]
                  else q' == q)
             && (if (pc.CheckTail? || pc.SpinTail?) && l.tail == NULL then pc'.Idle? && q == []
                 else InDequeue(pc')
                      && (if Before(pc) && !(pc.CasHead? && l.head == pc.top && !weak) then Before(pc')
                          else !Before(pc') && Held(pc') == if pc.CasHead? then pc.top else Held(pc)))
    ensures var pc := r.list.threads[r.self];
            if (pc.CheckTail? || pc.SpinTail?) && r.list.tail == NULL then Outcome(r, q) == (false, q')
            else Located(r') && Outcome(r', q') == Outcome(r, q)
  {
  }

  /** Where a dequeue goes next. */
  lemma TakingStep(l: List, t: nat, weak: bool)
    requires t < |l.threads| == |Next(l, Step(t, weak)).threads| && InDequeue(l.threads[t]) && !l.threads[t].CountDown?
    ensures var pc, pc' := l.threads[t], Next(l, Step(t, weak)).threads[t];
            if (pc.CheckTail? || pc.SpinTail?) && l.tail == NULL
                then pc'.Idle? && ReplyOf(l, Step(t, weak)) == [Entry(t, Miss)]
            else ReplyOf(l, Step(t, weak)) == [] && InDequeue(pc')
                 && (if Before(pc) && !(pc.CasHead? && l.head == pc.top && !weak) then Before(pc')
                     else !Before(pc') && Held(pc') == if pc.CasHead? then pc.top else Held(pc))
  {
  }

  /** The thread lets go of the node it has dequeued. */
  lemma Dequeued(l: List, v: View, t: nat, weak: bool)
    requires Inv(l, v) && t < |l.threads| && l.threads[t].CountDown?
    ensures var l' := Next(l, Step(t, weak));
            && Inv(l', v) && |l'.threads| == |l.threads| && l'.threads[t].Idle? && Track(l, v, Step(t, weak)) == v
            && l.threads[t].top != NULL && l.threads[t].top !in l'.inside
            && ReplyOf(l, Step(t, weak)) == [Entry(t, Take(l.threads[t].top))]
  {
    assert Holding(l.threads[t]) && Held(l.threads[t]) == l.threads[t].top;
    Preserved(l, v, Step(t, weak));
  }

  /** It starts to put the node back. */
  lemma PutsBack(l: List, v: View, t: nat, n: nat)
    requires Inv(l, v) && t < |l.threads| && l.threads[t].Idle? && n != NULL && n !in l.inside
    ensures var l' := Next(l, Begin(t, Enqueue(n)));
            Inv(l', v) && |l'.threads| == |l.threads| && l'.threads[t] == ResetNext(n)
  {
    Preserved(l, v, Begin(t, Enqueue(n)));
  }

  /** The dequeue returns, and the node is either what remove looks for or on its way back. */
  lemma TakenAgrees(r: Removal, m: Memory, weak: bool)
    requires Agrees(r, m) && Possible(r, Own(weak)) && r.stage.Taking? && r.list.threads[r.self].CountDown?
    ensures Agrees(Act(r, Own(weak)), Watch(r, m, Own(weak)))
  {
    var top := r.list.threads[r.self].top;
    var l' := Next(r.list, Step(r.self, weak));
    Dequeued(r.list, m.view, r.self, weak);
    if top == r.target {
      TakenOutcome(r, r.(list := l', stage := Returned(true)), m);
    } else {
      PutsBack(l', m.view, r.self, top);
      TakenOutcome(r, r.(list := Next(l', Begin(r.self, Enqueue(top))), stage := Putting), m);
    }
  }

  lemma TakenOutcome(r: Removal, r': Removal, m: Memory)
    requires Agrees(r, m) && r.stage.Taking? && r.list.threads[r.self].CountDown?
    requires r' == r.(list := r'.list, stage := r'.stage) && |r'.list.threads| == |r.list.threads|
    requires Inv(r'.list, m.view)
    requires if r.list.threads[r.self].top == r.target then r'.stage == Returned(true) && r'.list.threads[r.self].Idle?
             else r'.stage.Putting? && r'.list.threads[r.self] == ResetNext(r.list.threads[r.self].top)
    ensures Agrees(r', m)
  {
  }

  /** Where an enqueue goes next. */
  lemma PuttingStep(l: List, t: nat, weak: bool)
    requires t < |l.threads| == |Next(l, Step(t, weak)).threads| && InEnqueue(l.threads[t])
    ensures var pc, pc' := l.threads[t], Next(l, Step(t, weak)).threads[t];
            if pc.CountUp? then pc'.Idle? && ReplyOf(l, Step(t, weak)) == [Entry(t, Put(pc.node))]
            else ReplyOf(l, Step(t, weak)) == [] && InEnqueue(pc')
                 && (if pc.ResetNext? then pc' == SwapTail(pc.node) else !pc'.ResetNext? && !pc'.SwapTail?)
  {
  }

  lemma PuttingKeeps(r: Removal, m: Memory, weak: bool)
    requires Inv(r.list, m.view) && Located(r) && Possible(r, Own(weak)) && r.stage.Putting?
    ensures var r', v' := Act(r, Own(weak)), Track(r.list, m.view, Step(r.self, weak));
            Located(r') && |r'.list.threads| == |r.list.threads| && Outcome(r', v'.queue) == Outcome(r, m.view.queue)
            && r'.target == r.target && !r'.stage.Ready? && r'.list == Next(r.list, Step(r.self, weak))
  {
    OwnEffect(r.list, m.view, r.self, weak);
    SameThreads(r.list, Step(r.self, weak));
    PuttingStep(r.list, r.self, weak);
    PutOutcome(r, r.(list := Next(r.list, Step(r.self, weak))), m.view.queue,
        Track(r.list, m.view, Step(r.self, weak)).queue);
  }

  lemma PuttingAgrees(r: Removal, m: Memory, weak: bool)
    requires Agrees(r, m) && Possible(r, Own(weak)) && r.stage.Putting?
    ensures Agrees(Act(r, Own(weak)), Watch(r, m, Own(weak)))
  {
    PuttingKeeps(r, m, weak);
    Preserved(r.list, m.view, Step(r.self, weak));
    OutcomeAgrees(r, m, Act(r, Own(weak)), Track(r.list, m.view, Step(r.self, weak)), m.quiet);
  }

  /** An access of an enqueue that does not return keeps the outcome. */
  lemma PutOutcome(r: Removal, r': Removal, q: seq<nat>, q': seq<nat>)
    requires Located(r) && r.stage.Putting? && r' == r.(list := r'.list) && r.self < |r'.list.threads|
    requires var pc, pc' := r.list.threads[r.self], r'.list.threads[r.self];
             (if pc.SwapTail? then q' == q + [pc.node] else q' == q)
             && (pc.CountUp? ==> pc'.Idle?)
             && (!pc.CountUp? ==>
                   (InEnqueue(pc')
                    && (if pc.ResetNext? then pc' == SwapTail(pc.node) else !pc'.ResetNext? && !pc'.SwapTail?)))
    ensures if r.list.threads[r.self].CountUp? then Outcome(r, q) == RemoveFrom(q', r.target, r.left - 1)
            else Located(r') && Outcome(r', q') == Outcome(r, q)
  {
  }

  lemma ActAgrees(r: Removal, m: Memory, a: Action)
    requires Agrees(r, m)
    ensures Agrees(Act(r, a), Watch(r, m, a))
  {
    if Possible(r, a) {
      match a
      case Other(move) => OtherAgrees(r, m, move);
      case Own(weak) =>
        if r.stage.Taking? {
          if r.list.threads[r.self].CountDown? {
            TakenAgrees(r, m, weak);
          } else {
            TakingAgrees(r, m, weak);
          }
        } else if r.stage.Putting? {
          PuttingAgrees(r, m, weak);
        } else {
          LoopAgrees(r, m, weak);
        }
    }
  }

  ghost predicate Starts(r: Removal) {
    Initial(r.list) && r.self < |r.list.threads| && r.stage.Ready?
  }

  lemma {:induction false} Reached(r: Removal, actions: seq<Action>)
    requires Starts(r)
    ensures Agrees(Execute(r, actions).removal, Execute(r, actions).memory)
  {
    if actions == [] {
      InitialInv(r.list);
    } else {
      Reached(r, actions[..|actions| - 1]);
      var run := Execute(r, actions[..|actions| - 1]);
      ActAgrees(run.removal, run.memory, actions[|actions| - 1]);
    }
  }

  // ---------------------------------------------------------------------
  // What remove answers
  // ---------------------------------------------------------------------

  /**
   Among threads that may be stopped anywhere, in the middle of their operations,
   a remove during which no other operation takes effect does to the queue what
   the rotation does, with the bound it computed from the count it read.
   */
  lemma {:induction false} RemoveRotates(r: Removal, actions: seq<Action>)
    requires Starts(r) && Execute(r, actions).removal.stage.Returned? && Execute(r, actions).memory.quiet
    ensures var run := Execute(r, actions);
            RemoveFrom(run.memory.start, run.removal.target, Turns(run.memory)) ==
                (run.removal.stage.found, run.memory.view.queue)
  {
    Reached(r, actions);
  }

  /**
   The target of such a remove, if the queue held it when the count was read, is
   found if and only if it stands before the bound.
   */
  lemma {:induction false} RemoveFindsExactly(r: Removal, actions: seq<Action>, k: nat)
    requires Starts(r) && Execute(r, actions).removal.stage.Returned? && Execute(r, actions).memory.quiet
    requires k < |Execute(r, actions).memory.start|
    requires Execute(r, actions).memory.start[k] == Execute(r, actions).removal.target
    ensures Execute(r, actions).removal.stage.found <==> k < Turns(Execute(r, actions).memory)
  {
    Reached(r, actions);
    RemoveRotates(r, actions);
    var run := Execute(r, actions);
    BoundDecides(run.memory.start, run.removal.target, Turns(run.memory), k);
  }

  /**
   Such a remove answers rightly when the count it reads is at least the length
   of the queue, and so whenever no enqueue is past its tail exchange and not yet
   counted as it starts.
   */
  lemma {:induction false} RemoveAnswers(r: Removal, actions: seq<Action>)
    requires Starts(r) && Execute(r, actions).removal.stage.Returned? && Execute(r, actions).memory.quiet
    ensures var run := Execute(r, actions);
            && (!run.memory.lagging && |run.memory.start| + |run.removal.list.threads| < WORD / 2 ==>
                  |run.memory.start| <= run.memory.counted < WORD / 2)
            && (|run.memory.start| <= run.memory.counted < WORD / 2 ==>
                  (run.removal.stage.found <==> run.removal.target in run.memory.start))
  {
    Reached(r, actions);
    RemoveRotates(r, actions);
    AnswersRightly(Execute(r, actions).removal, Execute(r, actions).memory);
  }

  lemma AnswersRightly(r: Removal, m: Memory)
    requires Recorded(m, |r.list.threads|) && r.stage.Returned?
    requires RemoveFrom(m.start, r.target, Turns(m)).0 == r.stage.found
    ensures !m.lagging && |m.start| + |r.list.threads| < WORD / 2 ==> |m.start| <= m.counted < WORD / 2
    ensures |m.start| <= m.counted < WORD / 2 ==> (r.stage.found <==> r.target in m.start)
  {
    if |m.start| <= m.counted < WORD / 2 {
      assert Turns(m) == 2 * m.counted;
      LongEnough(m.start, r.target, Turns(m));
    }
  }

  lemma LongEnough(q: seq<nat>, x: nat, turns: nat)
    requires Distinct(q) && |q| <= turns
    ensures RemoveFrom(q, x, turns).0 <==> x in q
  {
    if x in q {
      var k :| 0 <= k < |q| && q[k] == x;
      BoundDecides(q, x, turns, k);
    } else {
      NeverFound(q, x, turns);
    }
  }

  lemma {:induction false} NeverFound(q: seq<nat>, x: nat, turns: nat)
    requires x !in q
    ensures !RemoveFrom(q, x, turns).0
    decreases turns
  {
    if turns > 0 && q != [] {
      NeverFound(q[1..] + [q[0]], x, turns - 1);
    }
  }

  lemma BoundDecides(q: seq<nat>, x: nat, turns: nat, k: nat)
    requires Distinct(q) && k < |q| && q[k] == x
    ensures RemoveFrom(q, x, turns).0 <==> k < turns
  {
    if k < turns {
      RemoveFinds(q, x, turns, k);
    } else {
      RemoveMisses(q, x, turns);
    }
  }

  // ---------------------------------------------------------------------
  // A remove that moves alone
  // ---------------------------------------------------------------------

  /** No other thread is in the middle of taking, linking or publishing a node. */
  ghost predicate OthersOutside(l: List, t: nat) {
    forall u :: 0 <= u < |l.threads| && u != t ==>
      !Claiming(l.threads[u]) && !l.threads[u].Link? && !l.threads[u].PublishFirst?
  }

  /** Accesses left until the dequeue or the enqueue of this turn has returned. */
  function StepsInTurn(l: List, pc: Pc): nat {
    match pc
    case LoadHead => 19
    case CheckTail => if l.tail == NULL then 1 else 18
    case SpinTail => if l.tail == NULL then 1 else 18
    case SpinHead => if l.head == NULL then 2 else 17
    case CasHead(top) => if l.head == top then 15 else if l.head == NULL then 3 else 16
    case ReadNext(_) => 14
    case StoreHead(_, _) => 13
    case CasTail(_) => 12
    case AwaitNext(_) => 11
    case RereadNext(_) => 10
    case RestoreHead(_, _) => 9
    case ClearNext(_) => 8
    case CountDown(_) => 7
    case ResetNext(_) => 6
    case SwapTail(_) => 5
    case Link(_, _) => 4
    case PublishFirst(_) => 4
    case CountUp(_) => 3
    case _ => 0
  }

  function StepsLeft(r: Removal): nat
    requires Located(r)
  {
    match r.stage
    case Ready => 20 * WORD + 2
    case Looking => 20 * r.left + 1
    case Returned(_) => 0
    case _ => 20 * (r.left - 1) + 1 + StepsInTurn(r.list, r.list.threads[r.self])
  }

  /** With the others outside, an access of the thread goes on, and no loop goes round. */
  lemma TurnAdvances(l: List, v: View, t: nat)
    requires Inv(l, v) && t < |l.threads| == |Next(l, Step(t, false)).threads| && OthersOutside(l, t)
    requires InDequeue(l.threads[t]) || InEnqueue(l.threads[t])
    ensures var l' := Next(l, Step(t, false));
            l'.threads[t].Idle? || StepsInTurn(l', l'.threads[t]) < StepsInTurn(l, l.threads[t])
  {
    assert Knows(l, v, l.threads[t]);
    if Before(l.threads[t]) {
      FreeHead(l, v, t);
    } else if Claiming(l.threads[t]) {
      FreeTail(l, v, t);
    }
  }

  lemma FreeHead(l: List, v: View, t: nat)
    requires Inv(l, v) && t < |l.threads| && OthersOutside(l, t) && Before(l.threads[t])
    ensures l.head == NULL <==> l.tail == NULL
  {
    EmptyTail(l, v);
    assert !Publishing(l.threads);
  }

  lemma FreeTail(l: List, v: View, t: nat)
    requires Inv(l, v) && t < |l.threads| && OthersOutside(l, t) && Claiming(l.threads[t])
    ensures NextOf(l, Held(l.threads[t])) == NULL ==> l.tail == Held(l.threads[t])
  {
    var c := Chain(v);
    assert c[0] == Held(l.threads[t]);
    if |c| > 1 {
      assert !Linking(l.threads, c[0], c[1]);
      ChainDistinct(l, v);
      assert NextOf(l, c[0]) == c[1] && c[1] in c;
    }
  }

  lemma OutsideStays(l: List, t: nat, m: Move)
    requires OthersOutside(l, t) && m.thread == t
    ensures OthersOutside(Next(l, m), t)
  {
    SameThreads(l, m);
    forall u | 0 <= u < |l.threads| && u != t
      ensures Next(l, m).threads[u] == l.threads[u]
    {
      OthersStay(l, m, u);
    }
  }

  lemma OwnAdvances(r: Removal, m: Memory)
    requires Agrees(r, m) && OthersOutside(r.list, r.self) && !r.stage.Returned?
    ensures var r' := Act(r, Own(false));
            Located(r') && OthersOutside(r'.list, r'.self) && StepsLeft(r') < StepsLeft(r)
  {
    ActAgrees(r, m, Own(false));
    if r.stage.Taking? || r.stage.Putting? {
      InsideAdvances(r, m);
    } else {
      OutsideStays(r.list, r.self, Begin(r.self, Dequeue));
    }
  }

  lemma InsideAdvances(r: Removal, m: Memory)
    requires Agrees(r, m) && OthersOutside(r.list, r.self) && (r.stage.Taking? || r.stage.Putting?)
    requires Located(Act(r, Own(false)))
    ensures var r' := Act(r, Own(false)); OthersOutside(r'.list, r'.self) && StepsLeft(r') < StepsLeft(r)
  {
    var l' := Next(r.list, Step(r.self, false));
    SameThreads(r.list, Step(r.self, false));
    TurnAdvances(r.list, m.view, r.self);
    OutsideStays(r.list, r.self, Step(r.self, false));
    if r.stage.Taking? && r.list.threads[r.self].CountDown? {
      OutsideStays(l', r.self, Begin(r.self, Enqueue(r.list.threads[r.self].top)));
    }
  }

  function ActAlone(r: Removal, n: nat): Removal
    decreases n
  {
    if n == 0 then r else ActAlone(Act(r, Own(false)), n - 1)
  }

  function WatchAlone(r: Removal, m: Memory, n: nat): Memory
    decreases n
  {
    if n == 0 then m else WatchAlone(Act(r, Own(false)), Watch(r, m, Own(false)), n - 1)
  }

  /** With the others outside, a remove that moves alone returns, from wherever it is. */
  lemma {:induction false} RemoveReturns(r: Removal, m: Memory) returns (n: nat)
    requires Agrees(r, m) && OthersOutside(r.list, r.self)
    ensures ActAlone(r, n).stage.Returned? && Agrees(ActAlone(r, n), WatchAlone(r, m, n)) && n <= StepsLeft(r)
    decreases StepsLeft(r)
  {
    if r.stage.Returned? {
      n := 0;
    } else {
      OwnAdvances(r, m);
      ActAgrees(r, m, Own(false));
      n := RemoveReturns(Act(r, Own(false)), Watch(r, m, Own(false)));
      n := n + 1;
    }
  }

  lemma {:induction false} QuietAlone(r: Removal, m: Memory, n: nat)
    requires !r.stage.Ready? && m.quiet
    ensures var r', m' := ActAlone(r, n), WatchAlone(r, m, n);
            m'.quiet && m'.start == m.start && m'.counted == m.counted && r'.target == r.target && !r'.stage.Ready?
    decreases n
  {
    if n > 0 {
      QuietStep(r, m);
      QuietAlone(Act(r, Own(false)), Watch(r, m, Own(false)), n - 1);
    }
  }

  lemma QuietStep(r: Removal, m: Memory)
    requires !r.stage.Ready? && m.quiet
    ensures var r', m' := Act(r, Own(false)), Watch(r, m, Own(false));
            m'.quiet && m'.start == m.start && m'.counted == m.counted && r'.target == r.target && !r'.stage.Ready?
  {
  }

  /**
   From its first access on, with the others outside, a remove alone does to the
   queue what the rotation does, and returns its answer.
   */
  lemma {:induction false} RemoveAlone(r: Removal, m: Memory) returns (n: nat)
    requires Agrees(r, m) && OthersOutside(r.list, r.self) && r.stage.Ready?
    ensures var r', m' := ActAlone(r, n), WatchAlone(r, m, n);
            r'.stage.Returned?
            && RemoveFrom(m.view.queue, r.target, 2 * r.list.count % WORD) == (r'.stage.found, m'.view.queue)
  {
    var r1, m1 := Act(r, Own(false)), Watch(r, m, Own(false));
    OwnAdvances(r, m);
    ActAgrees(r, m, Own(false));
    n := RemoveReturns(r1, m1);
    QuietAlone(r1, m1, n);
    n := n + 1;
  }

  // ---------------------------------------------------------------------
  // A remove that misses its target
  // ---------------------------------------------------------------------

  lemma Extend(r: Removal, actions: seq<Action>, a: Action)
    ensures Execute(r, actions + [a]) ==
            Run(Act(Execute(r, actions).removal, a), Watch(Execute(r, actions).removal, Execute(r, actions).memory, a))
  {
    assert (actions + [a])[..|actions|] == actions;
  }

  const EMPTY := List(NULL, NULL, 0, map[], [Idle, Idle], {})

  function Lag(i: nat): Action {
    if i == 0 then Other(Begin(1, Enqueue(7))) else if i < 4 then Other(Step(1, false)) else Own(false)
  }

  /** Thread 1 enqueues node 7 and stops before it counts it; thread 0 looks for the node. */
  function LagRun(n: nat): Run
    requires n <= 6
  {
    if n == 0 then Execute(Removal(EMPTY, 0, 7, 0, Ready), [])
    else var run := LagRun(n - 1);
      Run(Act(run.removal, Lag(n - 1)), Watch(run.removal, run.memory, Lag(n - 1)))
  }

  lemma {:induction false} LagExecutes(n: nat) returns (actions: seq<Action>)
    requires n <= 6
    ensures Execute(Removal(EMPTY, 0, 7, 0, Ready), actions) == LagRun(n)
  {
    if n == 0 {
      actions := [];
    } else {
      var before := LagExecutes(n - 1);
      Extend(Removal(EMPTY, 0, 7, 0, Ready), before, Lag(n - 1));
      actions := before + [Lag(n - 1)];
    }
  }

  lemma LagEnqueues()
    ensures var run := LagRun(4);
            run.removal == Removal(List(7, 7, 0, map[7 := NULL], [Idle, CountUp(7)], {7}), 0, 7, 0, Ready)
            && run.memory == Memory(View([7], NoClaim), [], 0, false, false)
  {
    var start := EMPTY.(threads := [Idle, ResetNext(7)], inside := {7});
    assert Next(EMPTY, Begin(1, Enqueue(7))) == start;
    assert LagRun(1).removal.list == start;
    assert LagRun(2).removal.list == start.(threads := [Idle, SwapTail(7)], next := map[7 := NULL]);
    assert LagRun(3).removal.list == start.(threads := [Idle, PublishFirst(7)], next := map[7 := NULL], tail := 7);
  }

  lemma LagReads()
    ensures LagRun(5).removal == LagRun(4).removal.(stage := Looking)
    ensures LagRun(5).memory == Memory(View([7], NoClaim), [7], 0, true, true)
  {
    LagEnqueues();
    assert NotCounted(LagRun(4).removal.list.threads[1]);
  }

  /** A node that has been enqueued and not yet counted can be missed, with nobody else taking a step. */
  lemma LaggingCountMisses() returns (r: Removal, actions: seq<Action>)
    ensures Starts(r)
    ensures var run := Execute(r, actions);
            run.removal.stage == Returned(false) && run.memory.quiet && run.memory.lagging
                && run.removal.target in run.memory.start
  {
    r := Removal(EMPTY, 0, 7, 0, Ready);
    actions := LagExecutes(6);
    LagEnqueues();
    LagReads();
  }
}
