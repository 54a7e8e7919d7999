/** What each call of the count-down event does when its thread moves alone. */
module CountDownEventAlone {
  import opened Tally
  import opened CountDownEvent
  import opened FifoListObject
  import opened Undisturbed

  /** The event, and the coroutines scheduled since the thread moves alone, in order. */
  datatype Lone = Lone(event: Event, scheduled: seq<nat>)

  /** The coroutine that the thread's next access schedules. */
  function Schedules(th: Thread): seq<nat> {
    if th.pc.WakeSchedule? then [th.hand] else if th.pc.RemovedSchedule? then [th.removed] else []
  }

  function Forward(x: Lone, t: nat, turns: nat): Lone {
    Lone(Next(x.event, Step(t, false, turns)),
         x.scheduled + if t < |x.event.threads| then Schedules(x.event.threads[t]) else [])
  }

  function Mover(t: nat, turns: nat): Lone -> Lone {
    (x: Lone) => Forward(x, t, turns)
  }

  /** After `n` accesses of thread `t`, with nobody else moving. */
  function Alone(x: Lone, t: nat, turns: nat, n: nat): Lone {
    After(Mover(t, turns), x, n)
  }

  lemma AloneMore(x: Lone, t: nat, turns: nat, a: nat, b: nat)
    ensures Alone(x, t, turns, a + b) == Alone(Alone(x, t, turns, a), t, turns, b)
  {
    AfterMore(Mover(t, turns), x, a, b);
  }

  lemma OneMore(x: Lone, t: nat, turns: nat)
    ensures Alone(x, t, turns, 1) == Forward(x, t, turns)
    ensures Alone(x, t, turns, 2) == Forward(Forward(x, t, turns), t, turns)
  {
    AfterFew(Mover(t, turns), x);
  }

  // ---------------------------------------------------------------------
  // The loop that wakes waiters
  // ---------------------------------------------------------------------

  /** One turn of the loop at zero: the first waiter is scheduled. */
  lemma WakesFirst(x: Lone, t: nat, turns: nat)
    requires var e := x.event;
             && t < |e.threads| && e.threads[t].pc.WakeDequeue? && e.threads[t].hand == NULL
             && e.count == 0 && e.wait != []
    ensures var e := x.event;
            Alone(x, t, turns, 4) ==
              Lone(e.(wait := e.wait[1..], custody := e.custody - {e.wait[0]}), x.scheduled + [e.wait[0]])
  {
    var e, th := x.event, x.event.threads[t];
    var c := e.wait[0];
    var x1 := Lone(With(e.(wait := e.wait[1..]), t, th.(pc := WakeCheck, hand := c)), x.scheduled);
    var x2 := Lone(Goto(x1.event, t, WakeSchedule), x.scheduled);
    var x3 := Lone(With(x2.event.(custody := e.custody - {c}), t, th.(pc := WakeAgain)), x.scheduled + [c]);
    assert Forward(x, t, turns) == x1;
    assert Forward(x1, t, turns) == x2;
    assert Forward(x2, t, turns) == x3;
    assert Forward(x3, t, turns).event == Goto(x3.event, t, WakeDequeue);
    assert Goto(x3.event, t, WakeDequeue) == e.(wait := e.wait[1..], custody := e.custody - {c});
    OneMore(x, t, turns);
    OneMore(x2, t, turns);
    AloneMore(x, t, turns, 2, 2);
  }

  function Elements(q: seq<nat>): set<nat> {
    set c | c in q
  }

  /** What the loop that wakes waiters leaves at zero. */
  function Woken(x: Lone, t: nat): Lone
    requires t < |x.event.threads|
  {
    var e := x.event;
    var left := e.(wait := [], custody := e.custody - Elements(e.wait));
    Lone(Settle(Goto(left, t, Back(e.threads[t])), t), x.scheduled + e.wait)
  }

  /** The event after one turn at zero. */
  function FirstWoken(x: Lone): Lone
    requires x.event.wait != []
  {
    var e := x.event;
    Lone(e.(wait := e.wait[1..], custody := e.custody - {e.wait[0]}), x.scheduled + [e.wait[0]])
  }

  lemma WokenAgain(x: Lone, t: nat)
    requires t < |x.event.threads| && x.event.wait != []
    ensures Woken(FirstWoken(x), t) == Woken(x, t)
  {
    var e := x.event;
    assert e.wait == [e.wait[0]] + e.wait[1..];
    assert e.custody - {e.wait[0]} - Elements(e.wait[1..]) == e.custody - Elements(e.wait);
    assert x.scheduled + [e.wait[0]] + e.wait[1..] == x.scheduled + e.wait;
  }

  lemma NobodyToWake(x: Lone, t: nat, turns: nat)
    requires var e := x.event;
             && t < |e.threads| && e.threads[t].pc.WakeDequeue? && e.threads[t].hand == NULL && e.count == 0
             && e.wait == []
    ensures Alone(x, t, turns, 1) == Woken(x, t)
  {
    var e := x.event;
    OneMore(x, t, turns);
    assert e.(wait := [], custody := e.custody - Elements(e.wait)) == e;
  }

  /** At zero every waiter is scheduled, in order. */
  lemma {:induction false} WakesAll(x: Lone, t: nat, turns: nat)
    requires var e := x.event;
             t < |e.threads| && e.threads[t].pc.WakeDequeue? && e.threads[t].hand == NULL && e.count == 0
    ensures Alone(x, t, turns, 4 * |x.event.wait| + 1) == Woken(x, t)
    decreases |x.event.wait|
  {
    if x.event.wait == [] {
      NobodyToWake(x, t, turns);
    } else {
      var x1 := FirstWoken(x);
      var n := 4 * |x1.event.wait| + 1;
      assert 4 * |x.event.wait| + 1 == 4 + n;
      AloneMore(x, t, turns, 4, n);
      WakesFirst(x, t, turns);
      WakesAll(x1, t, turns);
      WokenAgain(x, t);
    }
  }

  /** Above zero the first waiter goes to the end. */
  lemma PutsBack(x: Lone, t: nat, turns: nat)
    requires var e := x.event;
             && t < |e.threads| && e.threads[t].pc.WakeDequeue? && e.threads[t].hand == NULL
             && e.count != 0 && e.wait != []
    ensures var e := x.event;
            Alone(x, t, turns, 4) ==
              x.(event := Settle(Goto(e.(wait := e.wait[1..] + [e.wait[0]]), t, Back(e.threads[t])), t))
  {
    var e, th := x.event, x.event.threads[t];
    var c := e.wait[0];
    var x1 := x.(event := With(e.(wait := e.wait[1..]), t, th.(pc := WakeCheck, hand := c)));
    var x2 := x.(event := Goto(x1.event, t, WakeEnqueue));
    var x3 := x.(event := With(e.(wait := e.wait[1..] + [c]), t, th.(pc := WakeAgain)));
    assert Forward(x, t, turns) == x1;
    assert Forward(x1, t, turns) == x2;
    assert Forward(x2, t, turns) == x3;
    OneMore(x, t, turns);
    OneMore(x2, t, turns);
    AloneMore(x, t, turns, 2, 2);
    assert Goto(x3.event, t, Back(th)) == Goto(e.(wait := e.wait[1..] + [c]), t, Back(th));
  }

  // ---------------------------------------------------------------------
  // The accesses of each call
  // ---------------------------------------------------------------------

  predicate Starts(x: Lone, t: nat, th: Thread) {
    t < |x.event.threads| && x.event.threads[t] == th
  }

  /** A countDown that moves alone lowers a count that is not zero, and at zero schedules every waiter. */
  lemma CountsDown(x: Lone, t: nat, turns: nat) returns (n: nat)
    requires Starts(x, t, IDLE.(pc := DownLoad)) && x.event.count >= 0
    ensures var e := x.event;
            Alone(x, t, turns, n) ==
              if e.count == 0 then x.(event := With(e, t, IDLE))
              else if e.count > 1 then x.(event := With(e.(count := e.count - 1), t, IDLE))
              else Lone(With(e.(count := 0, wait := [], custody := e.custody - Elements(e.wait)), t, IDLE),
                  x.scheduled + e.wait)
  {
    var e := x.event;
    OneMore(x, t, turns);
    if e.count == 0 {
      n := 1;
    } else {
      var x1 := x.(event := With(e, t, IDLE.(pc := DownCas, prev := e.count)));
      var x2 := x.(event := With(e.(count := e.count - 1), t, if e.count == 1 then IDLE.(pc := WakeDequeue) else IDLE));
      assert Forward(x, t, turns) == x1;
      LowersAlone(x1, t, turns);
      assert Forward(x1, t, turns) == x2;
      n := 2;
      if e.count == 1 {
        WakesAll(x2, t, turns);
        AloneMore(x, t, turns, 2, 4 * |e.wait| + 1);
        n := 2 + (4 * |e.wait| + 1);
        assert Woken(x2, t).event == With(e.(count := 0, wait := [], custody := e.custody - Elements(e.wait)), t, IDLE);
      }
    }
  }

  lemma LowersAlone(x: Lone, t: nat, turns: nat)
    requires var e := x.event; Starts(x, t, IDLE.(pc := DownCas, prev := e.count)) && e.count > 0
    ensures var e := x.event;
            Forward(x, t, turns) ==
              x.(event := With(e.(count := e.count - 1), t, if e.count == 1 then IDLE.(pc := WakeDequeue) else IDLE))
  {
  }

  /** A countUp that moves alone raises a count that is not at its maximum. */
  lemma CountsUp(x: Lone, t: nat, turns: nat)
    requires Starts(x, t, IDLE.(pc := UpLoad)) && x.event.count <= x.event.max
    ensures var e := x.event;
            Alone(x, t, turns, 2) ==
                x.(event := With(e.(count := if e.count == e.max then e.max else e.count + 1), t, IDLE))
  {
    var e := x.event;
    OneMore(x, t, turns);
    if e.count != e.max {
      assert Forward(x, t, turns) == x.(event := With(e, t, IDLE.(pc := UpCas, prev := e.count)));
    }
  }

  /** An enqueue that moves alone puts its coroutine at the end, unless the count is zero. */
  lemma Enlists(x: Lone, t: nat, turns: nat, c: nat)
    requires Starts(x, t, IDLE.(pc := EnlistZero, hand := c))
    ensures var e := x.event;
            Alone(x, t, turns, if e.count == 0 then 1 else 3) ==
              if e.count == 0 then x.(event := With(e.(custody := e.custody - {c}), t, IDLE))
              else x.(event := With(e.(wait := e.wait + [c]), t, IDLE))
  {
    var e := x.event;
    OneMore(x, t, turns);
    if e.count != 0 {
      var x1 := x.(event := With(e, t, IDLE.(pc := EnlistPut, hand := c)));
      var x2 := x.(event := With(e.(wait := e.wait + [c]), t, IDLE.(pc := EnlistCheck)));
      assert Forward(x, t, turns) == x1;
      assert Forward(x1, t, turns) == x2;
      AloneMore(x, t, turns, 2, 1);
      OneMore(x2, t, turns);
    }
  }

  /** One turn of remove: the first waiter is the one, or goes to the end. */
  lemma RemoveTurn(x: Lone, t: nat, turns: nat, target: nat, left: nat)
    requires Starts(x, t, IDLE.(pc := RemoveTake, target := target, left := left)) && left > 0 && x.event.wait != []
    requires x.event.wait[0] != target
    ensures var e := x.event;
            Alone(x, t, turns, 2) ==
              x.(event := With(e.(wait := e.wait[1..] + [e.wait[0]]), t,
                               IDLE.(pc := RemoveTake, target := target, left := left - 1)))
  {
    var e := x.event;
    var x1 := x.(event := With(e.(wait := e.wait[1..]), t,
                               IDLE.(pc := RemovePut, target := target, hand := e.wait[0], left := left - 1)));
    OneMore(x, t, turns);
    assert Forward(x, t, turns) == x1;
  }

  /** The rotation of remove, whatever bound it has computed. */
  lemma {:induction false} Rotates(x: Lone, t: nat, turns: nat, target: nat, left: nat) returns (n: nat)
    requires Starts(x, t, IDLE.(pc := RemoveTake, target := target, left := left))
    ensures var (found, rest) := RemoveFrom(x.event.wait, target, left);
            Alone(x, t, turns, n) ==
              x.(event := With(x.event.(wait := rest), t,
                               IDLE.(pc := RemoveCheck, removed := if found then target else NULL)))
    decreases left
  {
    var e := x.event;
    if left == 0 || e.wait == [] || e.wait[0] == target {
      n := 1;
      OneMore(x, t, turns);
    } else {
      RemoveTurn(x, t, turns, target, left);
      var x1 := Alone(x, t, turns, 2);
      n := Rotates(x1, t, turns, target, left - 1);
      AloneMore(x, t, turns, 2, n);
      n := n + 2;
    }
  }

  /** The event when remove has returned, and the cancelled waiter been scheduled if it was found. */
  function Removed(x: Lone, t: nat, turns: nat, c: nat): Lone
    requires t < |x.event.threads|
  {
    var e := x.event;
    if e.count == 0 then x.(event := With(e, t, IDLE)) else
    var (found, rest) := RemoveFrom(e.wait, c, turns);
    Lone(With(e.(wait := rest, custody := if found then e.custody - {c} else e.custody), t, IDLE),
         x.scheduled + if found then [c] else [])
  }

  /** A cancelled waiter that is removed alone leaves the queue rotated, and is scheduled if it was found. */
  lemma Removes(x: Lone, t: nat, turns: nat, c: nat) returns (n: nat)
    requires Starts(x, t, IDLE.(pc := RemoveZero, target := c)) && c != NULL
    ensures Alone(x, t, turns, n) == Removed(x, t, turns, c)
  {
    if x.event.count == 0 {
      n := 1;
      OneMore(x, t, turns);
    } else {
      var x1 := x.(event := With(x.event, t, IDLE.(pc := RemoveTake, target := c, left := turns)));
      RemoveBegins(x, t, turns, c);
      n := RotatesAndEnds(x1, t, turns, c);
      AloneMore(x, t, turns, 2, n);
      n := n + 2;
      SameRemoved(x, x1, t, turns, c);
    }
  }

  lemma SameRemoved(x: Lone, x1: Lone, t: nat, turns: nat, c: nat)
    requires t < |x.event.threads|
    requires exists th :: x1 == x.(event := With(x.event, t, th))
    ensures Removed(x1, t, turns, c) == Removed(x, t, turns, c)
  {
    var (_, rest) := RemoveFrom(x.event.wait, c, turns);
    assert With(x1.event, t, IDLE) == With(x.event, t, IDLE);
    assert With(x1.event.(wait := rest), t, IDLE) == With(x.event.(wait := rest), t, IDLE);
  }

  lemma RotatesAndEnds(x: Lone, t: nat, turns: nat, c: nat) returns (n: nat)
    requires Starts(x, t, IDLE.(pc := RemoveTake, target := c, left := turns)) && c != NULL && x.event.count != 0
    ensures Alone(x, t, turns, n) == Removed(x, t, turns, c)
  {
    n := Rotates(x, t, turns, c, turns);
    var more := RemoveEnds(Alone(x, t, turns, n), t, turns, c, RemoveFrom(x.event.wait, c, turns).0);
    AloneMore(x, t, turns, n, more);
    n := n + more;
  }

  lemma RemoveBegins(x: Lone, t: nat, turns: nat, c: nat)
    requires Starts(x, t, IDLE.(pc := RemoveZero, target := c)) && x.event.count != 0
    ensures Alone(x, t, turns, 2) == x.(event := With(x.event, t, IDLE.(pc := RemoveTake, target := c, left := turns)))
  {
    OneMore(x, t, turns);
    assert Forward(x, t, turns) == x.(event := With(x.event, t, IDLE.(pc := RemoveCount, target := c)));
  }

  lemma RemoveEnds(x: Lone, t: nat, turns: nat, c: nat, found: bool) returns (n: nat)
    requires Starts(x, t, IDLE.(pc := RemoveCheck, removed := if found then c else NULL)) && c != NULL
    requires x.event.count != 0
    ensures var e := x.event;
            Alone(x, t, turns, n) ==
              if found then Lone(With(e.(custody := e.custody - {c}), t, IDLE), x.scheduled + [c])
              else x.(event := With(e, t, IDLE))
  {
    OneMore(x, t, turns);
    if found {
      n := 2;
      assert Forward(x, t, turns) == x.(event := With(x.event, t, IDLE.(pc := RemovedSchedule, removed := c)));
    } else {
      n := 1;
    }
  }

  // ---------------------------------------------------------------------
  // The calls
  // ---------------------------------------------------------------------

  function Begun(x: Lone, t: nat, call: Call): Lone {
    x.(event := Next(x.event, Begin(t, call)))
  }

  predicate Calls(x: Lone, t: nat, call: Call) {
    Enabled(x.event, Begin(t, call)) && 0 <= x.event.count <= x.event.max
  }

  lemma Leaves(e: Event, t: nat, th: Thread)
    requires t < |e.threads| && e.threads[t] == IDLE
    ensures With(With(e, t, th), t, IDLE) == e
  {
  }

  /**
   A countDown that moves alone lowers a count that is not zero, and schedules
   every waiter, in order, when it reaches zero.
   */
  lemma CountDownAlone(x: Lone, t: nat, turns: nat) returns (n: nat)
    requires Calls(x, t, CountDown)
    ensures var e := x.event;
            Alone(Begun(x, t, CountDown), t, turns, n) ==
              if e.count == 0 then x
              else if e.count > 1 then x.(event := e.(count := e.count - 1))
              else Lone(e.(count := 0, wait := [], custody := e.custody - Elements(e.wait)), x.scheduled + e.wait)
  {
    n := CountsDown(Begun(x, t, CountDown), t, turns);
    Leaves(x.event, t, IDLE.(pc := DownLoad));
    assert Begun(x, t, CountDown).event == With(x.event, t, IDLE.(pc := DownLoad));
  }

  /** A countUp that moves alone raises a count that is not at its maximum. */
  lemma CountUpAlone(x: Lone, t: nat, turns: nat)
    requires Calls(x, t, CountUp)
    ensures var e := x.event;
            Alone(Begun(x, t, CountUp), t, turns, 2) ==
              x.(event := e.(count := if e.count == e.max then e.max else e.count + 1))
  {
    CountsUp(Begun(x, t, CountUp), t, turns);
    Leaves(x.event, t, IDLE.(pc := UpLoad));
    assert Begun(x, t, CountUp).event == With(x.event, t, IDLE.(pc := UpLoad));
  }

  /** An enqueue that moves alone puts its coroutine at the end, unless the count is zero. */
  lemma EnqueueAlone(x: Lone, t: nat, turns: nat, c: nat)
    requires Calls(x, t, Enqueue(c))
    ensures var e := x.event;
            Alone(Begun(x, t, Enqueue(c)), t, turns, if e.count == 0 then 1 else 3) ==
              if e.count == 0 then x else x.(event := e.(wait := e.wait + [c], custody := e.custody + {c}))
  {
    var e := x.event;
    Enlists(Begun(x, t, Enqueue(c)), t, turns, c);
    var held := e.(custody := e.custody + {c});
    Leaves(held, t, IDLE.(pc := EnlistZero, hand := c));
    assert Begun(x, t, Enqueue(c)).event == With(held, t, IDLE.(pc := EnlistZero, hand := c));
    assert e.custody + {c} - {c} == e.custody;
  }

  /**
   A cancelled waiter that is removed alone leaves the queue as the rotation
   does, and is scheduled if it was found; at a count of zero nothing happens.
   */
  lemma RemoveAlone(x: Lone, t: nat, turns: nat, c: nat) returns (n: nat)
    requires Calls(x, t, Remove(c)) && c != NULL
    ensures var e := x.event;
            Alone(Begun(x, t, Remove(c)), t, turns, n) ==
              if e.count == 0 then x else
              var (found, rest) := RemoveFrom(e.wait, c, turns);
              Lone(e.(wait := rest, custody := if found then e.custody - {c} else e.custody),
                   x.scheduled + if found then [c] else [])
  {
    n := Removes(Begun(x, t, Remove(c)), t, turns, c);
    Leaves(x.event, t, IDLE.(pc := RemoveZero, target := c));
    assert Begun(x, t, Remove(c)).event == With(x.event, t, IDLE.(pc := RemoveZero, target := c));
  }

  // ---------------------------------------------------------------------
  // From wherever the thread is
  // ---------------------------------------------------------------------

  /** Bounds the accesses that a thread has left. */
  function Left(e: Event, th: Thread, turns: nat): nat {
    var w, exact := 4 * |e.wait|, th.prev == e.count;
    match th.pc
    case Idle => 0
    case DownLoad => w + 4
    case DownCas => if exact then w + 3 else w + 4
    case UpLoad => 2
    case UpCas => if exact then 1 else 2
    case WakeDequeue => if e.count == 0 then w + 2 else 5
    case WakeCheck => if e.count == 0 then w + 5 else 4
    case WakeEnqueue => if e.count == 0 then w + 8 else 3
    case WakeSchedule => if e.count == 0 then w + 4 else 3
    case WakeAgain => if e.count == 0 then w + 3 else 2
    case EnlistZero => w + 12
    case EnlistPut => w + 11
    case EnlistCheck => w + 6
    case RemoveZero => 2 * turns + w + 9
    case RemoveCount => 2 * turns + w + 8
    case RemoveTake => 2 * th.left + w + 7
    case RemovePut => 2 * th.left + w + 12
    case RemoveCheck => w + 6
    case RemovedSchedule => 1
  }

  predicate Nearer(e: Event, e': Event, t: nat, turns: nat)
    requires t < |e.threads|
  {
    |e'.threads| == |e.threads| && Left(e', e'.threads[t], turns) < Left(e, e.threads[t], turns)
  }

  predicate InCount(pc: Pc) {
    pc.DownLoad? || pc.DownCas? || pc.UpLoad? || pc.UpCas?
  }

  predicate InWake(pc: Pc) {
    pc.WakeDequeue? || pc.WakeCheck? || pc.WakeEnqueue? || pc.WakeSchedule? || pc.WakeAgain?
  }

  predicate InEnlist(pc: Pc) {
    pc.EnlistZero? || pc.EnlistPut? || pc.EnlistCheck?
  }

  predicate InRemove(pc: Pc) {
    || pc.RemoveZero? || pc.RemoveCount? || pc.RemoveTake? || pc.RemovePut? || pc.RemoveCheck?
    || pc.RemovedSchedule?
  }

  lemma CountNearer(e: Event, t: nat, turns: nat)
    requires t < |e.threads| && InCount(e.threads[t].pc)
    ensures Nearer(e, Next(e, Step(t, false, turns)), t, turns)
  {
  }

  lemma WakeNearer(e: Event, t: nat, turns: nat)
    requires t < |e.threads| && InWake(e.threads[t].pc)
    ensures Nearer(e, Next(e, Step(t, false, turns)), t, turns)
  {
  }

  lemma EnlistNearer(e: Event, t: nat, turns: nat)
    requires t < |e.threads| && InEnlist(e.threads[t].pc)
    ensures Nearer(e, Next(e, Step(t, false, turns)), t, turns)
  {
  }

  lemma RemoveNearer(e: Event, t: nat, turns: nat)
    requires t < |e.threads| && InRemove(e.threads[t].pc)
    ensures Nearer(e, Next(e, Step(t, false, turns)), t, turns)
  {
  }

  /** Wherever a thread is inside the event, it returns from there if it moves alone. */
  lemma {:induction false} ReturnsAlone(x: Lone, t: nat, turns: nat) returns (n: nat)
    requires t < |x.event.threads|
    ensures |Alone(x, t, turns, n).event.threads| == |x.event.threads|
    ensures Alone(x, t, turns, n).event.threads[t].pc.Idle?
    decreases Left(x.event, x.event.threads[t], turns)
  {
    var pc := x.event.threads[t].pc;
    if pc.Idle? {
      n := 0;
    } else {
      NearerStep(x.event, t, turns);
      n := ReturnsAlone(Forward(x, t, turns), t, turns);
      AloneMore(x, t, turns, 1, n);
      OneMore(x, t, turns);
      n := n + 1;
    }
  }

  lemma NearerStep(e: Event, t: nat, turns: nat)
    requires t < |e.threads| && !e.threads[t].pc.Idle?
    ensures Nearer(e, Next(e, Step(t, false, turns)), t, turns)
  {
    var pc := e.threads[t].pc;
    if InCount(pc) {
      CountNearer(e, t, turns);
    } else if InEnlist(pc) {
      EnlistNearer(e, t, turns);
    } else if InWake(pc) {
      WakeNearer(e, t, turns);
    } else {
      RemoveNearer(e, t, turns);
    }
  }
}
