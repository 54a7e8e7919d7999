/** The asynchronous count-down event as an object, run by one thread at a time. */
module CountDownEventObject {
  import opened Tally
  import opened FifoListObject

  /** `scheduled` records the calls of schedule on coroutines. */
  class AsyncCountDownEvent {
    var count: int
    const max: int
    var waitQueue: seq<nat>
    var scheduled: seq<nat>

    /** Nobody waits for a count that is zero. */
    ghost predicate Valid()
      reads this
    {
      0 <= count <= max && (count == 0 ==> waitQueue == [])
    }

    constructor (initiallyZero: bool, maxCount: int)
      requires maxCount >= 1
      ensures Valid() && count == (if initiallyZero then 0 else 1) && max == maxCount && waitQueue == []
      ensures scheduled == []
    {
      count := if initiallyZero then 0 else 1;
      max := maxCount;
      waitQueue, scheduled := [], [];
    }

    /** `failures` is how often the weak exchange fails spuriously. */
    method CountDown(failures: nat) returns (reachedZero: bool)
      requires Valid()
      modifies this`count, this`waitQueue, this`scheduled
      ensures Valid()
      ensures reachedZero <==> old(count) == 1
      ensures count == if old(count) == 0 then 0 else old(count) - 1
      ensures if reachedZero then waitQueue == [] && scheduled == old(scheduled) + old(waitQueue)
              else waitQueue == old(waitQueue) && scheduled == old(scheduled)
    {
      var prevCount, left := count, failures;
      while true
        invariant prevCount == count == old(count) && waitQueue == old(waitQueue) && scheduled == old(scheduled)
        decreases left
      {
        if prevCount == 0 {
          return false;
        }
        if left == 0 {
          break;
        }
        left, prevCount := left - 1, count;
      }
      count := prevCount - 1;
      if prevCount == 1 {
        ResumeWaiting();
        return true;
      }
      return false;
    }

    method CountUp(failures: nat) returns (fromZero: bool)
      requires Valid()
      modifies this`count
      ensures Valid()
      ensures count == if old(count) == max then max else old(count) + 1
      ensures fromZero <==> old(count) == 0 && old(count) != max
    {
      var prevCount, left := count, failures;
      while true
        invariant prevCount == count == old(count)
        decreases left
      {
        if prevCount == max {
          return false;
        }
        if left == 0 {
          break;
        }
        left, prevCount := left - 1, count;
      }
      count := prevCount + 1;
      fromZero := prevCount == 0;
    }

    /** At zero everybody goes, in order; above zero the first waiter moves to the end. */
    method ResumeWaiting()
      modifies this`waitQueue, this`scheduled
      ensures old(waitQueue) == [] ==> waitQueue == [] && scheduled == old(scheduled)
      ensures old(waitQueue) != [] && count == 0 ==> waitQueue == [] && scheduled == old(scheduled) + old(waitQueue)
      ensures old(waitQueue) != [] && count != 0 ==>
                waitQueue == old(waitQueue)[1..] + [old(waitQueue)[0]] && scheduled == old(scheduled)
    {
      ghost var done: nat := 0;
      while waitQueue != []
        invariant done <= |old(waitQueue)| && waitQueue == old(waitQueue)[done..]
        invariant scheduled == old(scheduled) + old(waitQueue)[..done]
        invariant done > 0 ==> count == 0
        decreases |waitQueue|
      {
        var coroutine := waitQueue[0];
        waitQueue := waitQueue[1..];
        if count != 0 {
          waitQueue := waitQueue + [coroutine];
        } else {
          scheduled := scheduled + [coroutine];
          assert old(waitQueue)[..done + 1] == old(waitQueue)[..done] + [coroutine];
          done := done + 1;
        }
        if count != 0 {
          break;
        }
      }
    }

    /**
     Refused exactly when the count is zero. The second look at the count, for
     other threads, belongs to the machine.
     */
    method Enqueue(c: nat) returns (enqueued: bool)
      requires Valid()
      modifies this`waitQueue, this`scheduled
      ensures Valid() && scheduled == old(scheduled)
      ensures enqueued <==> count != 0
      ensures waitQueue == old(waitQueue) + if enqueued then [c] else []
    {
      if count == 0 {
        return false;
      }
      waitQueue := waitQueue + [c];
      return true;
    }

    method Remove(c: nat) returns (removed: bool)
      requires Valid()
      modifies this`waitQueue, this`scheduled
      ensures Valid() && scheduled == old(scheduled)
      ensures (removed, waitQueue) ==
                if count == 0 then (false, old(waitQueue))
                    else RemoveFrom(old(waitQueue), c, 2 * |old(waitQueue)| % WORD)
    {
      if count == 0 {
        return false;
      }
      var turns := 2 * |waitQueue| % WORD;
      ghost var expected := RemoveFrom(waitQueue, c, turns);
      while turns > 0 && waitQueue != []
        invariant turns >= 0 && expected == RemoveFrom(waitQueue, c, turns) && scheduled == old(scheduled)
        decreases turns
      {
        var front := waitQueue[0];
        waitQueue := waitQueue[1..];
        if front == c {
          return true;
        }
        waitQueue := waitQueue + [front];
        turns := turns - 1;
      }
      return false;
    }
  }
}
