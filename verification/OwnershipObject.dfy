/** Owners as references between coroutine objects, changed by one thread at a time. */
module OwnershipObject {

  /** `count` is the completion event's: the coroutine's own token and one for each coroutine it owns. */
  class Coroutine {
    var count: nat
    var owner: Coroutine?

    constructor ()
      ensures count == 1 && owner == null
    {
      count, owner := 1, null;
    }

    /**
     A charge of one coroutine moves from its previous owner to the new one; a
     coroutine that has completed is left alone. Only another thread can bring
     the count to zero during the call, which is the machine's business.
     */
    method SetOwner(newOwner: Coroutine?)
      requires newOwner != this && owner != this
      requires (newOwner != null ==> newOwner.count > 0) && (owner != null ==> owner.count > 0)
      modifies this, owner, newOwner
      ensures newOwner != null ==> newOwner.owner == old(newOwner.owner)
      ensures old(owner) != null ==> old(owner).owner == old(owner.owner)
      ensures count == old(count)
      ensures owner == if old(count) == 0 then old(owner) else newOwner
      ensures old(count) == 0 && owner != null ==> owner.count == old(owner.count)
      ensures newOwner != null ==>
                newOwner.count == old(newOwner.count) + if old(count) != 0 && newOwner != old(owner) then 1 else 0
      ensures old(owner) != null && old(owner) != newOwner ==>
                old(owner).count == old(owner.count) - if old(count) != 0 then 1 else 0
    {
      if count == 0 {
        return;
      }
      count := count + 1;
      if newOwner != null {
        newOwner.count := newOwner.count + 1;
      }
      var oldOwner := owner;
      owner := newOwner;
      if oldOwner != null {
        oldOwner.count := oldOwner.count - 1;
      }
      count := count - 1;
    }

    /** The owner gets its charge back, once. */
    method SignalOwner()
      requires owner != this && (owner != null ==> owner.count > 0)
      modifies this, owner
      ensures old(owner) != null ==> old(owner).owner == old(owner.owner)
      ensures owner == null && count == old(count)
      ensures old(owner) != null ==> old(owner).count == old(owner.count) - 1
    {
      var taken := owner;
      owner := null;
      if taken != null {
        taken.count := taken.count - 1;
      }
    }

    /**
     The final awaiter of a coroutine without children completes it; one with
     children leaves that to its completion task.
     */
    method Finish() returns (completed: bool)
      requires count >= 1 && owner != this && (owner != null ==> owner.count > 0)
      modifies this, owner
      ensures old(owner) != null ==> old(owner).owner == old(owner.owner)
      ensures completed <==> old(count) == 1
      ensures count == old(count) - 1
      ensures owner == if completed then null else old(owner)
      ensures old(owner) != null ==> old(owner).count == old(owner.count) - if completed then 1 else 0
    {
      completed := count == 1;
      count := count - 1;
      if completed {
        SignalOwner();
      }
    }
  }
}
