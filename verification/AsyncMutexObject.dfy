/** The asynchronous mutex as an object, run by one thread at a time. */
module AsyncMutexObject {
  import opened Tally
  import opened FifoListObject

  /** What is left of the wait list when `remove` has looked for `x`. */
  function Rest(q: seq<nat>, x: nat): seq<nat> {
    RemoveFrom(q, x, 2 * |q| % WORD).1
  }

  /** `scheduled` and `marked` record the calls of schedule and setCancelled on coroutines. */
  class AsyncMutex {
    var owner: nat
    var waitList: seq<nat>
    var cancelled: bool
    var scheduled: seq<nat>
    var marked: set<nat>

    /** Nobody waits for a mutex that nobody owns. */
    ghost predicate Valid()
      reads this
    {
      NULL !in waitList && (owner == NULL ==> waitList == [])
    }

    constructor ()
      ensures Valid() && owner == NULL && waitList == [] && !cancelled && scheduled == [] && marked == {}
    {
      owner, waitList, cancelled, scheduled, marked := NULL, [], false, [], {};
    }

    /** `failures` is how often the weak exchange fails spuriously. */
    method TryLock(c: nat, failures: nat) returns (locked: bool)
      requires c != NULL
      modifies this`owner
      ensures locked <==> old(owner) == NULL
      ensures owner == if locked then c else old(owner)
    {
      var current, left := owner, failures;
      while true
        invariant owner == old(owner) == current
        decreases left
      {
        if current != NULL {
          return false;
        }
        if left == 0 {
          owner := c;
          return true;
        }
        left, current := left - 1, owner;
      }
    }

    /** Whatever the state, a mutex that has been locked for somebody is owned. */
    method Lock(c: nat, failures: nat)
      requires c != NULL && NULL !in waitList
      modifies this`owner, this`waitList, this`scheduled
      ensures owner != NULL && NULL !in waitList && Valid()
      ensures old(owner) != NULL ==>
              owner == old(owner) && waitList == old(waitList) + [c] && scheduled == old(scheduled)
      ensures old(owner) == NULL ==> owner == c && waitList == old(waitList) && scheduled == old(scheduled) + [c]
    {
      var current, left := owner, failures;
      if current != NULL {
        waitList := waitList + [c];
        return;
      }
      while left > 0
        invariant owner == current == NULL
      {
        left, current := left - 1, owner;
      }
      owner := c;
      scheduled := scheduled + [c];
    }

    /** The owner hands on to the first waiter; a cancelled mutex lets every waiter go. */
    method Unlock(c: nat)
      requires Valid() && c != NULL
      modifies this`owner, this`waitList, this`scheduled, this`marked
      ensures Valid()
      ensures old(owner) != c ==>
                owner == old(owner) && waitList == old(waitList) && scheduled == old(scheduled)
                && marked == old(marked) + if cancelled then {c} else {}
      ensures old(owner) == c && cancelled ==>
                owner == NULL && waitList == [] && scheduled == old(scheduled) + old(waitList)
                && marked == old(marked) + {c} + (set x | x in old(waitList))
      ensures old(owner) == c && !cancelled && old(waitList) == [] ==>
                owner == NULL && waitList == [] && scheduled == old(scheduled) && marked == old(marked)
      ensures old(owner) == c && !cancelled && old(waitList) != [] ==>
                owner == old(waitList)[0] && waitList == old(waitList)[1..] && scheduled == old(scheduled) + [owner]
                    && marked == old(marked)
    {
      if owner != c {
        if cancelled {
          marked := marked + {c};
        }
        return;
      }
      if cancelled {
        marked := marked + {owner};
        Drain();
        owner := NULL;
        return;
      }
      if waitList == [] {
        owner := NULL;
      } else {
        owner, waitList := waitList[0], waitList[1..];
        scheduled := scheduled + [owner];
      }
    }

    /** Every waiter is marked as cancelled and scheduled, in the order of the wait list. */
    method Drain()
      modifies this`waitList, this`scheduled, this`marked
      ensures waitList == [] && scheduled == old(scheduled) + old(waitList)
      ensures marked == old(marked) + (set x | x in old(waitList))
    {
      ghost var done: nat := 0;
      while waitList != []
        invariant done <= |old(waitList)| && waitList == old(waitList)[done..]
        invariant scheduled == old(scheduled) + old(waitList)[..done]
        invariant marked == old(marked) + (set x | x in old(waitList)[..done])
        decreases |waitList|
      {
        var c := waitList[0];
        waitList := waitList[1..];
        marked := marked + {c};
        scheduled := scheduled + [c];
        assert old(waitList)[..done + 1] == old(waitList)[..done] + [c];
        done := done + 1;
      }
    }

    method Cancel()
      requires Valid()
      modifies this`waitList, this`scheduled, this`marked, this`cancelled
      ensures Valid() && cancelled && waitList == [] && scheduled == old(scheduled) + old(waitList)
      ensures marked == old(marked) + (set x | x in old(waitList))
    {
      cancelled := true;
      Drain();
    }

    /** Whoever removes a waiter also repairs a mutex that it finds without an owner. */
    method Remove(c: nat) returns (removed: bool)
      requires NULL !in waitList
      modifies this`owner, this`waitList, this`scheduled
      ensures Valid()
      ensures removed == RemoveFrom(old(waitList), c, 2 * |old(waitList)| % WORD).0
      ensures var rest := Rest(old(waitList), c);
              if old(owner) == NULL && rest != []
                  then owner == rest[0] && waitList == rest[1..] && scheduled == old(scheduled) + [rest[0]]
              else owner == old(owner) && waitList == rest && scheduled == old(scheduled)
    {
      var turns := 2 * |waitList| % WORD;
      ghost var expected := RemoveFrom(waitList, c, turns);
      removed := false;
      while turns > 0 && waitList != [] && !removed
        invariant NULL !in waitList && turns >= 0 && owner == old(owner) && scheduled == old(scheduled)
        invariant if removed then expected == (true, waitList) else expected == RemoveFrom(waitList, c, turns)
        decreases turns, !removed
      {
        var front := waitList[0];
        waitList := waitList[1..];
        if front == c {
          removed := true;
        } else {
          waitList := waitList + [front];
          turns := turns - 1;
        }
      }
      if owner == NULL && waitList != [] {
        var waiting := waitList[0];
        waitList := waitList[1..];
        Lock(waiting, 0);
      }
    }
  }

  /** What the rotation leaves is every other waiter, once; the waiter was there exactly when remove says so. */
  lemma RemoveTakesOne(q: seq<nat>, x: nat)
    requires Distinct(q) && |q| < WORD / 2
    ensures RemoveFrom(q, x, 2 * |q| % WORD).0 <==> x in q
    ensures multiset(Rest(q, x)) == multiset(q) - multiset{x}
  {
    RemoveCorrect(q, x);
    if x in q {
      var k :| 0 <= k < |q| && q[k] == x;
      WithoutOne(q, k);
    } else {
      assert multiset(q)[x] == 0;
    }
  }

  /** The two parts of a list around one of its elements hold the others. */
  lemma WithoutOne(q: seq<nat>, k: nat)
    requires k < |q|
    ensures multiset(q[k + 1..] + q[..k]) == multiset(q) - multiset{q[k]}
  {
    assert q == q[..k] + ([q[k]] + q[k + 1..]);
    assert multiset(q) == multiset(q[..k]) + multiset([q[k]] + q[k + 1..]);
  }
}
