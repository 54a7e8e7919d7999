/** A coroutine and the handles to it as an object, run by one thread at a time. */
module CoroutineObject {
  import opened Tally
  import opened CoroutineStatus

  /** What an awaiter answers to a cancel. */
  datatype Answer = NotBlocked | Cancelled | StillBlocked

  /**
   `asked` records the awaiters that were cancelled, `signals` and `schedules`
   count the calls of signalOwner and schedule, `destroyed` is the destruction of
   the frame and `aborted` the end of the program. `count` is that of the
   completion event, `continuation` whoever is to be resumed by a generator.
   */
  class Coroutine {
    var status: Status
    var cancelled: bool
    var awaiters: seq<nat>
    var refCount: nat
    const lazy: bool
    var count: nat
    var continuation: nat
    var asked: seq<nat>
    var signals: nat
    var schedules: nat
    var destroyed: bool
    var aborted: bool

    /** A coroutine with one handle. */
    constructor (isTask: bool)
      ensures status == NotStarted && !cancelled && awaiters == [] && refCount == 1 && lazy == isTask
      ensures count == 1 && continuation == NULL && asked == [] && signals == schedules == 0 && !destroyed && !aborted
    {
      status, cancelled, awaiters, refCount, lazy := NotStarted, false, [], 1, isTask;
      count, continuation, asked, signals, schedules, destroyed, aborted := 1, NULL, [], 0, 0, false, false;
    }

    /** Returns the status that the request met; `failures` is how often the weak exchange fails spuriously. */
    method SetStatus(request: Status, final: bool, failures: nat) returns (previous: Status)
      requires !aborted
      modifies this`status, this`aborted
      ensures previous == old(status)
      ensures match CoroutineStatus.SetStatus(old(status), request, final, cancelled)
              case Keep => status == old(status) && !aborted
              case To(s) => status == s && !aborted
              case Abort => status == old(status) && aborted
    {
      var current, left := status, failures;
      while true
        invariant current == status == old(status) && !aborted
        decreases left
      {
        match CoroutineStatus.SetStatus(current, request, final, cancelled) {
          case Keep => return current;
          case Abort =>
            aborted := true;
            return current;
          case To(newStatus) =>
            if left == 0 {
              status := newStatus;
              return current;
            }
        }
        left, current := left - 1, status;
      }
    }

    /** The awaiters that a cancel asks to let go, among those in the list. */
    static function Asked(q: seq<nat>, answer: nat -> Answer): seq<nat> {
      if q == [] then []
      else Asked(q[..|q| - 1], answer) + if answer(q[|q| - 1]).NotBlocked? then [] else [q[|q| - 1]]
    }

    /** Only a suspended coroutine with an awaiter is paused; the list is emptied, and the status is suspended again. */
    method Cancel(answer: nat -> Answer)
      requires !aborted
      modifies this`status, this`cancelled, this`awaiters, this`asked, this`aborted
      ensures cancelled && !aborted && status == old(status)
      ensures var acts := !old(cancelled) && old(status).Suspended?;
              awaiters == (if acts then [] else old(awaiters))
              && asked == old(asked) + if acts then Asked(old(awaiters), answer) else []
    {
      if cancelled {
        return;
      }
      cancelled := true;
      if !status.Suspended? || awaiters == [] {
        return;
      }
      var previous := SetStatus(PauseOnRunning, false, 0);
      var found := true;
      while found && !status.Paused?
        invariant status.PauseOnRunning? && cancelled && !aborted
        invariant if awaiters == old(awaiters) && asked == old(asked) then found
                  else awaiters == [] && asked == old(asked) + Asked(old(awaiters), answer)
        invariant found || awaiters == []
        decreases |awaiters|, found
      {
        found := CancelAwaiters(answer);
      }
      previous := SetStatus(Resumed, false, 0);
    }

    static lemma AskedStep(q: seq<nat>, n: nat, answer: nat -> Answer)
      requires n < |q|
      ensures q[..n + 1] == q[..n] + [q[n]]
      ensures Asked(q[..n + 1], answer) == Asked(q[..n], answer) + if answer(q[n]).NotBlocked? then [] else [q[n]]
    {
      assert q[..n + 1][..n] == q[..n];
    }

    /** One pass over the list of awaiters. */
    method CancelAwaiters(answer: nat -> Answer) returns (foundBlocking: bool)
      modifies this`awaiters, this`asked
      ensures awaiters == [] && asked == old(asked) + Asked(old(awaiters), answer)
      ensures foundBlocking <==> exists k :: 0 <= k < |old(awaiters)| && answer(old(awaiters)[k]).StillBlocked?
    {
      foundBlocking := false;
      ghost var q: seq<nat>, done: nat := awaiters, 0;
      while awaiters != []
        invariant done <= |q| && awaiters == q[done..]
        invariant asked == old(asked) + Asked(q[..done], answer)
        invariant foundBlocking <==> exists k :: 0 <= k < done && answer(q[k]).StillBlocked?
        decreases |awaiters|
      {
        AskedStep(q, done, answer);
        var awaiter := awaiters[0];
        awaiters := awaiters[1..];
        if !answer(awaiter).NotBlocked? {
          asked := asked + [awaiter];
          foundBlocking := foundBlocking || answer(awaiter).StillBlocked?;
        }
        done := done + 1;
      }
      assert q[..done] == q;
    }

    /** A handle is copied. */
    method Ref() returns (previous: nat)
      modifies this`refCount
      ensures previous == old(refCount) && refCount == old(refCount) + 1
    {
      previous, refCount := refCount, refCount + 1;
    }

    /**
     What the last handle takes with it: besides a finished frame, a Task that
     nobody awaited and a generator between two values, when they have no children.
     */
    predicate DestroysUnfinished(found: Status)
      reads this`count
    {
      count == 1 && (found.YieldedSuspended? || (lazy && found.NotStarted?))
    }

    /** Counts its own token down, gives its charge back and destroys itself. */
    method Complete()
      requires count == 1
      modifies this`count, this`signals, this`destroyed
      ensures count == 0 && signals == old(signals) + 1 && destroyed
    {
      count := count - 1;
      signals := signals + 1;
      destroyed := true;
    }

    /**
     A handle is dropped. Only the last one matters: it destroys the frame, or
     abandons it to be destroyed later; a generator with children is cancelled and
     resumed to come to its end.
     */
    method DestroyOrAbandon(cancelAbandoned: bool, answer: nat -> Answer)
      requires refCount > 0 && !destroyed && !aborted
      modifies this
      ensures refCount == old(refCount) - 1
      ensures refCount > 0 || old(status).CompletedFinalSuspended? ==>
                && status == old(status) && !aborted && cancelled == old(cancelled)
                && awaiters == old(awaiters) && asked == old(asked)
                && count == old(count) && signals == old(signals) && schedules == old(schedules)
                && continuation == old(continuation)
      ensures refCount > 0 ==> !destroyed
      ensures refCount == 0 ==> (destroyed <==> old(status).CompletedFinalSuspended? || old(DestroysUnfinished(status)))
      ensures refCount == 0 ==> count == old(count) - One(old(DestroysUnfinished(status)))
      ensures refCount == 0 ==> signals == old(signals) + One(old(DestroysUnfinished(status)))
      ensures refCount == 0 ==>
                var resumed := old(status).YieldedSuspended? && old(count) != 1;
                && schedules == old(schedules) + One(resumed)
                && continuation == (if resumed then NULL else old(continuation))
                && (!old(status).CompletedFinalSuspended? ==>
                     cancelled == (old(cancelled) || cancelAbandoned || resumed))
      ensures refCount == 0 && !old(status).CompletedFinalSuspended? ==>
                var acts := cancelAbandoned && !old(cancelled) && old(status).Suspended?;
                && awaiters == (if acts then [] else old(awaiters))
                && asked == old(asked) + (if acts then Asked(old(awaiters), answer) else [])
      ensures refCount == 0 && !old(status).CompletedFinalSuspended? ==>
                (match CoroutineStatus.SetStatus(old(status), Abandoned, false, cancelled)
                 case Keep => false
                 case To(s) => status == s && (aborted <==> lazy && old(status).NotStarted? && old(count) != 1)
                 case Abort => aborted)
    {
      refCount := refCount - 1;
      if refCount != 0 {
        return;
      }
      if status.CompletedFinalSuspended? {
        destroyed := true;
        return;
      }
      if cancelAbandoned {
        Cancel(answer);
      }
      var last := SetStatus(Abandoned, false, 0);
      if (lazy && last.NotStarted?) || last.YieldedSuspended? {
        EndUnfinished(last, answer);
      }
    }

    /**
     The branches for a frame that was abandoned without running: they destroy it,
     or resume a generator to come to its end.
     */
    method EndUnfinished(last: Status, answer: nat -> Answer)
      requires !aborted && ((lazy && last.NotStarted?) || last.YieldedSuspended?)
      requires last.YieldedSuspended? ==> !status.Suspended?
      modifies this`count, this`signals, this`destroyed, this`aborted, this`continuation, this`schedules
      modifies this`status, this`cancelled, this`awaiters, this`asked
      ensures status == old(status) && awaiters == old(awaiters) && asked == old(asked)
      ensures old(count) == 1 ==>
                destroyed && count == 0 && signals == old(signals) + 1 && !aborted
                && schedules == old(schedules) && continuation == old(continuation) && cancelled == old(cancelled)
      ensures old(count) != 1 ==> destroyed == old(destroyed) && count == old(count) && signals == old(signals)
      ensures old(count) != 1 ==> (aborted <==> lazy && last.NotStarted?)
      ensures old(count) != 1 && !aborted ==>
                cancelled && continuation == NULL && schedules == old(schedules) + 1
      ensures old(count) != 1 && aborted ==>
                cancelled == old(cancelled) && continuation == old(continuation) && schedules == old(schedules)
    {
      if count == 1 {
        Complete();
      } else if lazy && last.NotStarted? {
        aborted := true;
      } else {
        Cancel(answer);
        continuation := NULL;
        schedules := schedules + 1;
      }
    }
  }
}
