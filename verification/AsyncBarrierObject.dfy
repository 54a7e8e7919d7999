/** The asynchronous barrier as an object, run by one thread at a time. */
module AsyncBarrierObject {
  import opened Tally

  /** The elements of `q` other than `x`, in order. */
  function Except(q: seq<nat>, x: nat): seq<nat> {
    if q == [] then []
    else if q[0] == x then Except(q[1..], x)
    else [q[0]] + Except(q[1..], x)
  }

  lemma {:induction false} ExceptAppend(q: seq<nat>, x: nat, y: nat)
    ensures Except(q + [y], x) == Except(q, x) + if y == x then [] else [y]
  {
    if q != [] {
      assert (q + [y])[1..] == q[1..] + [y];
      ExceptAppend(q[1..], x, y);
    }
  }

  lemma {:induction false} ExceptAbsent(q: seq<nat>, x: nat)
    requires x !in q
    ensures Except(q, x) == q
  {
    if q != [] {
      ExceptAbsent(q[1..], x);
    }
  }

  /** `scheduled` and `marked` record the calls of schedule and setCancelled on coroutines. */
  class AsyncBarrier {
    var count: int
    const capacity: int
    var waitList: seq<nat>
    var canceled: bool
    var scheduled: seq<nat>
    var marked: set<nat>

    /** The count is the number of waiters, and short of the capacity; a cancelled barrier has no waiters. */
    ghost predicate Valid()
      reads this
    {
      if canceled then waitList == [] && 0 <= count else 0 <= count == |waitList| < capacity
    }

    constructor (size: int)
      requires size >= 1
      ensures Valid() && count == 0 && capacity == size && waitList == [] && !canceled && scheduled == []
      ensures marked == {}
    {
      count, capacity, waitList, canceled, scheduled, marked := 0, size, [], false, [], {};
    }

    /** The last to arrive releases the others in the order they arrived, and does not wait. */
    method ArriveAndWait(awaiter: nat, failures: nat) returns (suspended: bool)
      requires Valid() && awaiter !in waitList
      modifies this`count, this`waitList, this`scheduled, this`marked
      ensures Valid()
      ensures suspended <==> !canceled && old(count) < capacity - 1
      ensures canceled ==>
                count == old(count) && scheduled == old(scheduled) && marked == old(marked) + {awaiter}
      ensures suspended ==>
                count == old(count) + 1 && waitList == old(waitList) + [awaiter] && scheduled == old(scheduled)
                    && marked == old(marked)
      ensures !canceled && !suspended ==>
                count == 0 && waitList == [] && scheduled == old(scheduled) + old(waitList) && marked == old(marked)
    {
      var current, left := count, failures;
      if canceled {
        marked := marked + {awaiter};
        return false;
      }
      waitList := waitList + [awaiter];
      while true
        invariant current == count == old(count) && waitList == old(waitList) + [awaiter]
        invariant scheduled == old(scheduled) && marked == old(marked)
        decreases left
      {
        if current == capacity - 1 {
          var released := ArriveAndRelease(Some(awaiter));
          ExceptAppend(old(waitList), awaiter, awaiter);
          ExceptAbsent(old(waitList), awaiter);
          assert released;
          return false;
        }
        if left == 0 {
          break;
        }
        left, current := left - 1, count;
      }
      count := current + 1;
      return true;
    }

    /** Releases a full round, skipping the awaiter that has put itself in the list. */
    method ArriveAndRelease(awaiter: Option<nat>) returns (released: bool)
      requires capacity >= 1 && |waitList| == count + (if awaiter.Some? then 1 else 0)
      modifies this`count, this`waitList, this`scheduled
      ensures released <==> old(count) == capacity - 1
      ensures released ==> count == 0 && waitList == []
      ensures released ==> scheduled == old(scheduled) + if awaiter.Some? then Except(old(waitList), awaiter.value)
              else old(waitList)
      ensures !released ==> count == old(count) && waitList == old(waitList) && scheduled == old(scheduled)
    {
      if count != capacity - 1 {
        return false;
      }
      var dequeues := if awaiter.None? then capacity - 1 else capacity;
      count := 0;
      var i := 0;
      while i < dequeues
        invariant 0 <= i <= dequeues == |old(waitList)| && count == 0 && waitList == old(waitList)[i..]
        invariant scheduled == old(scheduled) +
                    if awaiter.Some? then Except(old(waitList)[..i], awaiter.value) else old(waitList)[..i]
      {
        var op := waitList[0];
        waitList := waitList[1..];
        assert old(waitList)[..i + 1] == old(waitList)[..i] + [op];
        if awaiter.Some? {
          ExceptAppend(old(waitList)[..i], awaiter.value, op);
        }
        if awaiter != Some(op) {
          scheduled := scheduled + [op];
        }
        i := i + 1;
      }
      assert old(waitList)[..i] == old(waitList);
      released := true;
    }

    /** Every waiter is marked and scheduled; the count stays as it was. */
    method Cancel()
      requires Valid()
      modifies this`canceled, this`waitList, this`scheduled, this`marked
      ensures Valid() && canceled && waitList == []
      ensures if old(canceled) then scheduled == old(scheduled) && marked == old(marked)
              else scheduled == old(scheduled) + old(waitList) && marked == old(marked) + (set x | x in old(waitList))
    {
      if canceled {
        return;
      }
      canceled := true;
      ghost var done: nat := 0;
      while waitList != []
        invariant canceled && done <= |old(waitList)| && waitList == old(waitList)[done..]
        invariant scheduled == old(scheduled) + old(waitList)[..done]
        invariant marked == old(marked) + (set x | x in old(waitList)[..done])
        decreases |waitList|
      {
        var coroutine := waitList[0];
        waitList := waitList[1..];
        marked := marked + {coroutine};
        scheduled := scheduled + [coroutine];
        assert old(waitList)[..done + 1] == old(waitList)[..done] + [coroutine];
        done := done + 1;
      }
    }

    /** A reset makes the barrier usable again exactly when nobody is left waiting. */
    method Reset()
      requires capacity >= 1
      modifies this`canceled, this`count
      ensures !canceled && count == 0 && (Valid() <==> waitList == [])
    {
      canceled, count := false, 0;
    }
  }
}
