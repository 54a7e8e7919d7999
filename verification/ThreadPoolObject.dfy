/** The wake-up side of the thread pool as an object over the workers' states, run by one thread at a time. */
module ThreadPoolObject {
  import opened Tally
  import opened ThreadPool

  /**
   `asleep` and `events` are the workers' m_isSleeping flags and wake-up events;
   `held` says whose event mutex is taken.
   */
  class Workers {
    const asleep: array<bool>
    const events: array<bool>
    const held: array<bool>
    var mayBe: int
    var pending: int

    ghost predicate Valid()
      reads this, asleep
    {
      && asleep.Length == events.Length == held.Length >= 1
      && asleep != events && held != events && asleep != held
      && 0 <= mayBe <= asleep.Length && 0 <= pending <= asleep.Length
      && mayBe == Sleepers(asleep[..])
    }

    constructor (threadCount: nat)
      requires threadCount >= 1
      ensures Valid() && fresh(asleep) && fresh(events) && fresh(held) && asleep.Length == threadCount
      ensures mayBe == 0 && pending == 0 && forall i :: 0 <= i < threadCount ==> !asleep[i] && !events[i] && !held[i]
    {
      asleep := new bool[threadCount](_ => false);
      events := new bool[threadCount](_ => false);
      held := new bool[threadCount](_ => false);
      mayBe, pending := 0, 0;
      new;
      NobodySleeps(asleep[..]);
    }

    /** Would be woken by a call of wakeOneThread(immediate). */
    predicate Wakes(i: nat, immediate: bool)
      requires i < asleep.Length == held.Length
      reads asleep, held
    {
      asleep[i] && (immediate || !held[i])
    }

    ghost predicate First(i: nat, immediate: bool)
      requires asleep.Length == held.Length
      reads asleep, held
    {
      i < asleep.Length && Wakes(i, immediate) && forall j :: 0 <= j < i ==> !Wakes(j, immediate)
    }

    ghost predicate Somebody(immediate: bool)
      requires asleep.Length == held.Length
      reads asleep, held
    {
      exists i :: 0 <= i < asleep.Length && Wakes(i, immediate)
    }

    lemma SleeperWakes()
      requires Valid()
      ensures mayBe != 0 ==> Somebody(true)
    {
      if mayBe != 0 {
        SomebodySleeps(asleep[..]);
        var k :| 0 <= k < asleep.Length && asleep[..][k];
        assert Wakes(k, true);
      }
    }

    /** Sets the event of the first worker that it can wake, and of nobody else. */
    method WakeFirst(immediate: bool) returns (success: bool)
      requires Valid()
      modifies events
      ensures Valid()
      ensures mayBe == 0 ==> success && events[..] == old(events[..])
      ensures mayBe != 0 ==> (success <==> Somebody(immediate))
      ensures mayBe != 0 && success ==> exists i: nat :: First(i, immediate) && events[..] == old(events[..])[i := true]
      ensures !success ==> events[..] == old(events[..])
    {
      for i := 0 to asleep.Length
        invariant mayBe != 0 || i == 0
        invariant forall j :: 0 <= j < i ==> !Wakes(j, immediate)
        invariant events[..] == old(events[..])
      {
        if mayBe == 0 {
          return true;
        }
        if asleep[i] && (immediate || !held[i]) {
          events[i] := true;
          assert First(i, immediate) && events[..] == old(events[..])[i := true];
          return true;
        }
      }
      success := false;
    }

    /** The argument with which wakeOneThread tries first. */
    predicate TriesAtOnce(kind: Kind, noLocal: bool)
      reads this
    {
      match kind
      case Own => noLocal
      case Unpooled => true
      case OtherGlobal => true
      case OtherLocal => mayBe == asleep.Length
    }

    /** A call that wakes nobody leaves a request, as long as there are fewer requests than sleepers. */
    method WakeOneThread(kind: Kind, noLocal: bool, failures: nat)
      requires Valid()
      modifies events, this`pending
      ensures Valid()
      ensures mayBe == 0 ==> events[..] == old(events[..]) && pending == old(pending)
      ensures mayBe != 0 && TriesAtOnce(kind, noLocal) ==> Somebody(true)
      ensures mayBe != 0 && Somebody(TriesAtOnce(kind, noLocal)) ==>
                pending == old(pending)
                && exists i: nat :: First(i, TriesAtOnce(kind, noLocal)) && events[..] == old(events[..])[i := true]
      ensures mayBe != 0 && !Somebody(TriesAtOnce(kind, noLocal)) ==>
                events[..] == old(events[..]) && pending == if old(pending) < mayBe then old(pending) + 1
                    else old(pending)
    {
      var immediate := TriesAtOnce(kind, noLocal);
      var success := WakeFirst(immediate);
      SleeperWakes();
      if success || immediate {
        return;
      }
      var seen, left := pending, failures;
      while true
        invariant seen == pending == old(pending) && events[..] == old(events[..]) && Valid()
        decreases left
      {
        if seen >= mayBe {
          return;
        }
        if left == 0 {
          break;
        }
        left, seen := left - 1, pending;
      }
      pending := seen + 1;
    }

    /** One pending request, if there is one, becomes an attempt to wake somebody. */
    method ProcessPendingWakeUps(kind: Kind, noLocal: bool, failures: nat)
      requires Valid()
      modifies events, this`pending
      ensures Valid() && pending <= old(pending)
      ensures old(pending) == 0 ==> pending == 0 && events[..] == old(events[..])
      ensures old(pending) > 0 && mayBe == 0 ==> pending == old(pending) - 1 && events[..] == old(events[..])
      ensures old(pending) > 0 && mayBe > 0 && Somebody(TriesAtOnce(kind, noLocal)) ==>
                pending == old(pending) - 1
                && exists i: nat :: First(i, TriesAtOnce(kind, noLocal)) && events[..] == old(events[..])[i := true]
      ensures old(pending) > 0 && mayBe > 0 && !Somebody(TriesAtOnce(kind, noLocal)) ==>
                events[..] == old(events[..]) && pending == if old(pending) - 1 < mayBe then old(pending)
                    else old(pending) - 1
    {
      var seen, left := pending, failures;
      while true
        invariant seen == pending == old(pending) && events[..] == old(events[..]) && Valid()
        decreases left
      {
        if seen == 0 {
          return;
        }
        if left == 0 {
          break;
        }
        left, seen := left - 1, pending;
      }
      pending := seen - 1;
      WakeOneThread(kind, noLocal, failures);
    }

    /** A worker goes to sleep or wakes up; the last one to wake up drops the pending requests. */
    method SetSleeping(i: nat, sleeping: bool)
      requires Valid() && i < asleep.Length && asleep[i] == !sleeping
      modifies asleep, this`mayBe, this`pending
      ensures Valid() && asleep[..] == old(asleep[..])[i := sleeping]
      ensures mayBe == old(mayBe) + if sleeping then 1 else -1
      ensures pending == if !sleeping && mayBe == 0 then 0 else old(pending)
    {
      SleepersUpdate(asleep[..], i, sleeping);
      asleep[i] := sleeping;
      assert asleep[..] == old(asleep[..])[i := sleeping];
      SleepersBound(asleep[..]);
      if sleeping {
        mayBe := mayBe + 1;
      } else {
        mayBe := mayBe - 1;
        if mayBe == 0 {
          pending := 0;
        }
      }
    }
  }

  function Sleepers(flags: seq<bool>): int {
    if flags == [] then 0 else One(flags[0]) + Sleepers(flags[1..])
  }

  lemma {:induction false} SleepersUpdate(flags: seq<bool>, i: nat, b: bool)
    requires i < |flags|
    ensures Sleepers(flags[i := b]) == Sleepers(flags) - One(flags[i]) + One(b)
  {
    if i == 0 {
      assert flags[i := b][1..] == flags[1..];
    } else {
      assert flags[i := b][1..] == flags[1..][i - 1 := b];
      SleepersUpdate(flags[1..], i - 1, b);
    }
  }

  lemma {:induction false} SleepersBound(flags: seq<bool>)
    ensures 0 <= Sleepers(flags) <= |flags|
  {
    if flags != [] {
      SleepersBound(flags[1..]);
    }
  }

  lemma {:induction false} NobodySleeps(flags: seq<bool>)
    requires forall i :: 0 <= i < |flags| ==> !flags[i]
    ensures Sleepers(flags) == 0
  {
    if flags != [] {
      NobodySleeps(flags[1..]);
    }
  }

  lemma {:induction false} SomebodySleeps(flags: seq<bool>)
    requires Sleepers(flags) != 0
    ensures exists i :: 0 <= i < |flags| && flags[i]
  {
    if !flags[0] {
      SomebodySleeps(flags[1..]);
      var i :| 0 <= i < |flags[1..]| && flags[1..][i];
      assert flags[i + 1];
    }
  }
}
