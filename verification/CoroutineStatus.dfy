/** The status word of a coroutine and the table that every change of it goes through. */
module CoroutineStatus {

  datatype Status =
    | NotStarted
    | Running
    | Paused
    | Suspended
    | PauseOnRunning
    | Yielded
    | Returned
    | Completed
    | Abandoned
    | Resumed
    | ReturnedCompleted
    | YieldedSuspended
    | FinalSuspended
    | AbandonedFinalSuspended
    | AbandonedYieldSuspended
    | AbandonedCompleted
    | CompletedFinalSuspended

  /** A request is answered without a store, with a store, or by ending the program. */
  datatype Outcome = Keep | To(status: Status) | Abort

  function When(ok: bool, o: Outcome): Outcome {
    if ok then o else Abort
  }

  /** What setStatus does with a request in each status; `final` is the flag of the final awaiter. */
  function SetStatus(current: Status, request: Status, final: bool, cancelled: bool): Outcome {
    match current
    case NotStarted =>
      (match request
       case PauseOnRunning => Keep
       case Suspended => Keep
       case Abandoned => To(Abandoned)
       case Running => To(Running)
       case _ => Abort)
    case Returned =>
      (match request
       case PauseOnRunning => Keep
       case Abandoned => To(Abandoned)
       case Completed => To(ReturnedCompleted)
       case Suspended => When(final, To(FinalSuspended))
       case _ => Abort)
    case Yielded =>
      (match request
       case PauseOnRunning => Keep
       case Abandoned => To(Abandoned)
       case Suspended => To(YieldedSuspended)
       case Running => When(cancelled, To(Running))
       case _ => Abort)
    case FinalSuspended =>
      (match request
       case PauseOnRunning => Keep
       case Abandoned => To(AbandonedFinalSuspended)
       case Completed => To(CompletedFinalSuspended)
       case _ => Abort)
    case YieldedSuspended =>
      (match request
       case PauseOnRunning => Keep
       case Abandoned => To(AbandonedYieldSuspended)
       case Running => To(Running)
       case _ => Abort)
    case ReturnedCompleted =>
      (match request
       case PauseOnRunning => Keep
       case Abandoned => To(AbandonedCompleted)
       case Suspended => When(final, To(CompletedFinalSuspended))
       case _ => Abort)
    case Running =>
      (match request
       case Running => Keep
       case PauseOnRunning => Keep
       case Suspended => To(Suspended)
       case Returned => To(Returned)
       case Yielded => To(Yielded)
       case Abandoned => To(Abandoned)
       case _ => Abort)
    case Suspended =>
      (match request
       case Suspended => Keep
       case Running => To(Running)
       case Abandoned => To(Abandoned)
       case PauseOnRunning => To(PauseOnRunning)
       case _ => Abort)
    case Abandoned =>
      (match request
       case Suspended => To(if final then AbandonedFinalSuspended else Abandoned)
       case Completed => To(AbandonedCompleted)
       case Running => To(Abandoned)
       case Returned => To(Abandoned)
       case Yielded => To(Abandoned)
       case _ => Abort)
    case AbandonedFinalSuspended => if request.Completed? then Keep else Abort
    case AbandonedYieldSuspended => When(request.Running? && cancelled, To(Abandoned))
    case AbandonedCompleted => When(request.Suspended? && final, Keep)
    case CompletedFinalSuspended => if request.Abandoned? then Keep else Abort
    case PauseOnRunning =>
      (match request
       case Running => To(Paused)
       case Resumed => To(Suspended)
       case _ => Abort)
    case Paused => if request.Resumed? then To(Running) else Abort
    case Completed => Abort
    case Resumed => Abort
  }

  // ---------------------------------------------------------------------
  // The loop in setStatus
  // ---------------------------------------------------------------------

  /** What the loop in setStatus remembers between two accesses, or what it returned and did. */
  datatype Loop = Fresh | Expecting(seen: Status) | Finished(returned: Status, done: Outcome)

  /** One access finds the word to be `word`; a weak exchange may fail spuriously. */
  datatype Access = Access(word: Status, weak: bool)

  function Examine(word: Status, request: Status, final: bool, cancelled: bool): Loop {
    match SetStatus(word, request, final, cancelled)
    case To(_) => Expecting(word)
    case o => Finished(word, o)
  }

  /** The load before the loop, then one exchange after the other, until it finishes. */
  function LoopStep(l: Loop, a: Access, request: Status, final: bool, cancelled: bool): Loop {
    match l
    case Fresh => Examine(a.word, request, final, cancelled)
    case Expecting(seen) =>
      if a.word == seen && !a.weak then Finished(seen, SetStatus(seen, request, final, cancelled))
      else Examine(a.word, request, final, cancelled)
    case Finished(_, _) => l
  }

  function RunLoop(accesses: seq<Access>, request: Status, final: bool, cancelled: bool): Loop {
    if accesses == [] then Fresh
    else LoopStep(RunLoop(accesses[..|accesses| - 1], request, final, cancelled), accesses[|accesses| - 1], request,
        final, cancelled)
  }

  /** A step that finishes has done what the table says of the word it found. */
  lemma FinishingStep(l: Loop, a: Access, request: Status, final: bool, cancelled: bool)
    requires !l.Finished? && LoopStep(l, a, request, final, cancelled).Finished?
    ensures LoopStep(l, a, request, final, cancelled) == Finished(a.word, SetStatus(a.word, request, final, cancelled))
  {
  }

  /**
   Whatever others do to the word between its accesses, a call of setStatus that
   finishes has acted at one of its accesses as the table says of the word that
   the access found, and has stored nothing at the ones before.
   */
  lemma {:induction false} LoopIsAtomic(accesses: seq<Access>, request: Status, final: bool, cancelled: bool)
    returns (k: nat)
    requires RunLoop(accesses, request, final, cancelled).Finished?
    ensures k < |accesses|
    ensures RunLoop(accesses, request, final, cancelled) ==
            Finished(accesses[k].word, SetStatus(accesses[k].word, request, final, cancelled))
    ensures RunLoop(accesses[..k + 1], request, final, cancelled).Finished?
    ensures !RunLoop(accesses[..k], request, final, cancelled).Finished?
  {
    var last := |accesses| - 1;
    var before := accesses[..last];
    if RunLoop(before, request, final, cancelled).Finished? {
      k := LoopIsAtomic(before, request, final, cancelled);
      assert accesses[..k + 1] == before[..k + 1] && accesses[..k] == before[..k];
    } else {
      k := last;
      FinishingStep(RunLoop(before, request, final, cancelled), accesses[k], request, final, cancelled);
      assert accesses[..k + 1] == accesses;
    }
  }

  /** Undisturbed, a call finishes at its first access or, if the table stores something, at its second. */
  lemma LoopAlone(word: Status, request: Status, final: bool, cancelled: bool)
    ensures var access, o := Access(word, false), SetStatus(word, request, final, cancelled);
            RunLoop(if o.To? then [access, access] else [access], request, final, cancelled) == Finished(word, o)
  {
    var access := Access(word, false);
    assert [access][..0] == [] && [access, access][..1] == [access];
    assert RunLoop([access], request, final, cancelled) == Examine(word, request, final, cancelled);
  }
}
