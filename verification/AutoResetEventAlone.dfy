/** What a wait and a setting of the automatic reset event do when nobody else moves. */
module AutoResetEventAlone {
  import opened Undisturbed
  import opened AutoResetEvent

  function Mover(m: Move): Event -> Event {
    (e: Event) => Next(e, m)
  }

  /** After `n` accesses of the one that makes the move `m`, with nobody else moving. */
  function Alone(e: Event, m: Move, n: nat): Event {
    After(Mover(m), e, n)
  }

  lemma Extend(e: Event, m: Move, n: nat, e1: Event, e2: Event)
    requires Alone(e, m, n) == e1 && Next(e1, m) == e2
    ensures Alone(e, m, n + 1) == e2
  {
    AfterMore(Mover(m), e, n, 1);
    AfterFew(Mover(m), e1);
  }

  // ---------------------------------------------------------------------
  // Setting
  // ---------------------------------------------------------------------

  /** The mutex is taken, a blocked waiter is notified, and the mutex is free again. */
  lemma NotifiesAlone(e: Event, s: nat)
    requires s < |e.setters| && e.setters[s].SetLock? && e.mutex == 0 && !e.failed
    ensures Alone(e, SetterStep(s), 3) == Goto(Notify(e), s, Idle)
  {
    var e1, e2 := Goto(e.(mutex := s + 2), s, SetNotify), Goto(Notify(e).(mutex := s + 2), s, SetterUnlock);
    Extend(e, SetterStep(s), 0, e, e1);
    Extend(e, SetterStep(s), 1, e1, e2);
    Extend(e, SetterStep(s), 2, e2, Goto(Notify(e), s, Idle));
  }

  /**
   set, alone: the event is set; if the waiter had announced itself, it is
   notified, or the setter waits for the mutex.
   */
  lemma SetAlone(e: Event, s: nat) returns (n: nat)
    requires Enabled(e, CallSet(s))
    ensures Alone(Next(e, CallSet(s)), SetterStep(s), n) ==
              if e.word.NotSet? && e.mutex == 0 then Notify(e.(word := Set))
              else if e.word.NotSet? then Goto(e.(word := Set), s, SetLock)
              else e.(word := Set)
  {
    var e0 := Next(e, CallSet(s));
    assert e.setters[s := Idle] == e.setters;
    n := 1;
    if e.word.NotSet? {
      var e1 := Goto(e.(word := Set), s, SetLock);
      Extend(e0, SetterStep(s), 0, e0, e1);
      if e.mutex == 0 {
        NotifiesAlone(e1, s);
        AfterMore(Mover(SetterStep(s)), e0, 1, 3);
        assert Goto(Notify(e1), s, Idle) == Notify(e.(word := Set));
        n := 4;
      }
    } else {
      Extend(e0, SetterStep(s), 0, e0, e.(word := Set));
    }
  }

  /** trySet, alone: with the mutex free the event is set and a blocked waiter notified; otherwise nothing happens. */
  lemma TrySetAlone(e: Event, s: nat) returns (n: nat)
    requires Enabled(e, CallTrySet(s))
    ensures Alone(Next(e, CallTrySet(s)), SetterStep(s), n) == if e.mutex == 0 then Notify(e.(word := Set)) else e
  {
    var e0 := Next(e, CallTrySet(s));
    assert e.setters[s := Idle] == e.setters;
    if e.mutex != 0 {
      Extend(e0, SetterStep(s), 0, e0, e);
      n := 1;
    } else {
      var e1 := Goto(e.(mutex := s + 2), s, TryExchange);
      var e2 := Goto(e.(mutex := s + 2, word := Set), s, TryNotify);
      var e3 := Goto(Notify(e.(word := Set)).(mutex := s + 2), s, SetterUnlock);
      Extend(e0, SetterStep(s), 0, e0, e1);
      Extend(e0, SetterStep(s), 1, e1, e2);
      Extend(e0, SetterStep(s), 2, e2, e3);
      Extend(e0, SetterStep(s), 3, e3, Notify(e.(word := Set)));
      n := 4;
    }
  }

  // ---------------------------------------------------------------------
  // Waiting
  // ---------------------------------------------------------------------

  /** wait on a set event, alone: it returns, and the event is no longer set. */
  lemma WaitTakesAlone(e: Event)
    requires Enabled(e, Wait) && e.word.Set?
    ensures Alone(Next(e, Wait), WaiterStep, 3) == e.(word := Unset, read := Set)
  {
    var e0 := Next(e, Wait);
    var e1, e2 := e.(read := Set, waiter := EnterAssert), e.(read := Set, waiter := EnterClear);
    Extend(e0, WaiterStep, 0, e0, e1);
    Extend(e0, WaiterStep, 1, e1, e2);
    Extend(e0, WaiterStep, 2, e2, e.(word := Unset, read := Set));
  }

  /** wait on an event that is not set, alone: the waiter has announced itself and is blocked. */
  lemma WaitBlocksAlone(e: Event)
    requires Enabled(e, Wait) && e.word.Unset? && e.mutex == 0
    ensures Alone(Next(e, Wait), WaiterStep, 5) == e.(word := NotSet, waiter := Blocked)
  {
    var e0 := Next(e, Wait);
    var e1, e2 := e.(word := NotSet, waiter := Lock), e.(word := NotSet, waiter := Check, mutex := 1);
    var e3, e4 := e2.(waiter := Predicate), e2.(waiter := Sleep);
    Extend(e0, WaiterStep, 0, e0, e1);
    Extend(e0, WaiterStep, 1, e1, e2);
    Extend(e0, WaiterStep, 2, e2, e3);
    Extend(e0, WaiterStep, 3, e3, e4);
    Extend(e0, WaiterStep, 4, e4, e.(word := NotSet, waiter := Blocked));
  }

  /** A waiter that was notified, alone: it takes the setting and returns; without one it is blocked again. */
  lemma WakeAlone(e: Event) returns (n: nat)
    requires !e.failed && e.waiter.Relock? && e.mutex == 0
    ensures Alone(e, WaiterStep, n) ==
              if e.word.Set? then e.(word := Unset, waiter := Away) else e.(waiter := Blocked)
  {
    var e1 := e.(mutex := 1, waiter := Predicate);
    Extend(e, WaiterStep, 0, e, e1);
    if e.word.Set? {
      var e2, e3 := e1.(waiter := FinalAssert), e1.(waiter := FinalClear);
      var e4 := e1.(word := Unset, waiter := Unlock);
      Extend(e, WaiterStep, 1, e1, e2);
      Extend(e, WaiterStep, 2, e2, e3);
      Extend(e, WaiterStep, 3, e3, e4);
      Extend(e, WaiterStep, 4, e4, e.(word := Unset, waiter := Away));
      n := 5;
    } else {
      Extend(e, WaiterStep, 1, e1, e1.(waiter := Sleep));
      Extend(e, WaiterStep, 2, e1.(waiter := Sleep), e.(waiter := Blocked));
      n := 3;
    }
  }

  /** A setting that comes between the waiter's announcement and its look, and is seen there. */
  lemma CheckAlone(e: Event)
    requires !e.failed && e.waiter.Lock? && e.mutex == 0 && e.word.Set?
    ensures Alone(e, WaiterStep, 4) == e.(word := Unset, waiter := Away)
  {
    var e1 := e.(mutex := 1, waiter := Check);
    var e2, e3 := e1.(waiter := CheckClear), e1.(word := Unset, waiter := Unlock);
    Extend(e, WaiterStep, 0, e, e1);
    Extend(e, WaiterStep, 1, e1, e2);
    Extend(e, WaiterStep, 2, e2, e3);
    Extend(e, WaiterStep, 3, e3, e.(word := Unset, waiter := Away));
  }
}
