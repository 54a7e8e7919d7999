/**
 The life of a coroutine as its requests tell it, without the table of setStatus:
 where it is, whether its handles are gone, whether its completion is published,
 and whether a cancel holds it. The status word tells exactly that.
 */
module CoroutineStory {
  import opened CoroutineStatus

  datatype Place =
    | Unstarted
    | Inside            // it runs
    | Blocked           // it waits for something it awaited, or for whoever awaits it to resume it
    | Offering          // it has a value to hand over and has not stopped yet
    | Resting           // it rests between two values
    | Ended             // it has returned and not stopped yet
    | Over              // it is suspended for good

  /** Whether somebody holds a handle; the last one may have gone while the coroutine rested, as it does still. */
  datatype Handles = Held | DroppedAtRest | Dropped

  datatype Pause = NoPause | Asked | Stopped

  /** `gone`: the last of the three events that end a frame has happened, and whoever made it destroys the frame. */
  datatype Story = Story(place: Place, handles: Handles, completed: bool, pause: Pause, gone: bool)

  const BORN := Story(Unstarted, Held, false, NoPause, false)

  /** A request with the flag of the final awaiter, and the cancelled flag as it finds it. */
  datatype Request = Request(status: Status, final: bool, cancelled: bool)

  /** Who may ask for what, and when. */
  predicate Fits(s: Story, r: Request) {
    && !s.gone
    && match r.status
       case Running =>
         if s.pause.NoPause? then
           && !s.place.Ended? && !s.place.Over?
           && (s.place.Offering? && s.handles.Held? ==> r.cancelled)
           && (s.handles.DroppedAtRest? ==> r.cancelled)
         else s.pause.Asked?
       case Suspended =>
         && s.pause.NoPause? && !s.place.Resting? && !s.place.Over?
         && (s.place.Ended? ==> r.final) && (!s.handles.Held? && r.final ==> s.place.Ended?)
       case Yielded => s.pause.NoPause? && s.place.Inside?
       case Returned => s.pause.NoPause? && s.place.Inside?
       case Completed => (s.place.Ended? || s.place.Over?) && !s.completed
       case Abandoned => s.pause.NoPause? && s.handles.Held?
       case PauseOnRunning => s.pause.NoPause? && s.handles.Held? && !(s.place.Over? && s.completed)
       case Resumed => !s.pause.NoPause?
       case _ => false
  }

  /** Suspending moves a coroutine that runs, hands over a value or has returned. */
  function Stop(place: Place): Place {
    match place
    case Inside => Blocked
    case Offering => Resting
    case Ended => Over
    case _ => place
  }

  /** A frame ends with the suspension for good, the published completion and the last handle, in any order. */
  function Settle(s: Story, before: Story): Story {
    if s.place.Over? && s.completed && !s.handles.Held? then before.(gone := true) else s
  }

  /** What a request that fits makes of the story. */
  function Continue(s: Story, r: Request): Story {
    match r.status
    case Running => s.(place := Inside, handles := if s.handles.Held? then Held else Dropped,
                       pause := if s.pause.Asked? then Stopped else NoPause)
    case Suspended => Settle(s.(place := Stop(s.place)), s)
    case Yielded => s.(place := Offering)
    case Returned => s.(place := Ended)
    case Completed => Settle(s.(completed := true), s)
    case Abandoned => Settle(s.(handles := if s.place.Resting? then DroppedAtRest else Dropped), s)
    case PauseOnRunning => if s.place.Blocked? then s.(pause := Asked) else s
    case Resumed => s.(pause := NoPause)
    case _ => s
  }

  /** The stories there are. */
  predicate Possible(s: Story) {
    && (s.pause.Asked? ==> s.place.Blocked? && s.handles.Held?)
    && (s.pause.Stopped? ==> s.place.Inside? && s.handles.Held?)
    && (s.completed ==> s.place.Ended? || s.place.Over?)
    && (s.handles.DroppedAtRest? ==> s.place.Resting?)
    && !(s.place.Over? && s.completed && !s.handles.Held?)
    && (s.gone ==> (s.place.Over? && (s.completed || !s.handles.Held?)) || (s.completed && !s.handles.Held?))
  }

  /** What the status word says of a story. */
  function Word(s: Story): Status {
    if s.pause.Asked? then PauseOnRunning
    else if s.pause.Stopped? then Paused
    else if !s.handles.Held? then
      if s.place.Over? then AbandonedFinalSuspended
      else if s.completed then AbandonedCompleted
      else if s.handles.DroppedAtRest? then AbandonedYieldSuspended
      else Abandoned
    else
      match s.place
      case Unstarted => NotStarted
      case Inside => Running
      case Blocked => Suspended
      case Offering => Yielded
      case Resting => YieldedSuspended
      case Ended => if s.completed then ReturnedCompleted else Returned
      case Over => if s.completed then CompletedFinalSuspended else FinalSuspended
  }

  /** The word after a request. */
  function Stored(current: Status, o: Outcome): Status {
    if o.To? then o.status else current
  }

  /** What setStatus does with a request. */
  function Answer(current: Status, r: Request): Outcome {
    SetStatus(current, r.status, r.final, r.cancelled)
  }

  // ---------------------------------------------------------------------
  // The table
  // ---------------------------------------------------------------------

  /** A request that fits is taken, and leaves the word that tells the story as it goes on. */
  lemma TableTells(s: Story, r: Request)
    requires Possible(s) && Fits(s, r)
    ensures Possible(Continue(s, r))
    ensures Answer(Word(s), r) != Abort && Stored(Word(s), Answer(Word(s), r)) == Word(Continue(s, r))
  {
  }

  /** A story in which a request that is taken fits. */
  function Example(current: Status, r: Request): Story {
    match current
    case NotStarted => BORN
    case Running => BORN.(place := Inside)
    case Suspended => BORN.(place := Blocked)
    case Yielded => BORN.(place := Offering)
    case YieldedSuspended => BORN.(place := Resting)
    case Returned => BORN.(place := Ended)
    case ReturnedCompleted => BORN.(place := Ended, completed := true)
    case FinalSuspended => BORN.(place := Over)
    case CompletedFinalSuspended => BORN.(place := Over, completed := true)
    case PauseOnRunning => BORN.(place := Blocked, pause := Asked)
    case Paused => BORN.(place := Inside, pause := Stopped)
    case AbandonedYieldSuspended => BORN.(place := Resting, handles := DroppedAtRest)
    case AbandonedFinalSuspended => BORN.(place := Over, handles := Dropped)
    case AbandonedCompleted => BORN.(place := Ended, completed := true, handles := Dropped)
    case _ => BORN.(handles := Dropped,
      place := if r.status.Completed? || (r.status.Suspended? && r.final) then Ended else Inside)
  }

  lemma ExampleFits(current: Status, r: Request)
    requires Answer(current, r) != Abort
    ensures var s := Example(current, r);
            Possible(s) && Word(s) == current && Fits(s, r)
  {
  }

  /**
   For every word and every request: setStatus ends the program exactly when
   the request fits no story that the word may tell of.
   */
  lemma RefusedExactly(current: Status, r: Request)
    ensures Answer(current, r) == Abort <==> forall s :: Possible(s) && Word(s) == current ==> !Fits(s, r)
  {
    if Answer(current, r) != Abort {
      ExampleFits(current, r);
    } else {
      forall s | Possible(s) && Word(s) == current
        ensures !Fits(s, r)
      {
        if Fits(s, r) {
          TableTells(s, r);
        }
      }
    }
  }

  // ---------------------------------------------------------------------
  // Runs
  // ---------------------------------------------------------------------

  /**
   What changes the word: a request to setStatus, or the direct store with
   which an awaiting coroutine claims a Task that it found not started or resting.
   */
  datatype Event = Ask(request: Request) | Claim(expected: Status)

  predicate Happens(s: Story, e: Event) {
    match e
    case Ask(r) => Fits(s, r)
    case Claim(expected) =>
      && !s.gone && s.handles.Held? && s.pause.NoPause?
      && ((expected.NotStarted? && s.place.Unstarted?) || (expected.YieldedSuspended? && s.place.Resting?))
  }

  function GoesOn(s: Story, e: Event): Story {
    match e
    case Ask(r) => Continue(s, r)
    case Claim(_) => s.(place := Blocked)
  }

  function Rewritten(word: Status, e: Event): Status {
    match e
    case Ask(r) => Stored(word, Answer(word, r))
    case Claim(_) => Suspended
  }

  /** The event ends the program. */
  predicate Ends(word: Status, e: Event) {
    match e
    case Ask(r) => Answer(word, r) == Abort
    case Claim(expected) => word != expected
  }

  /** The word and the story after the events, one after the other, from the start. */
  function WordAfter(events: seq<Event>): Status {
    if events == [] then NotStarted
    else Rewritten(WordAfter(events[..|events| - 1]), events[|events| - 1])
  }

  function StoryAfter(events: seq<Event>): Story {
    if events == [] then BORN
    else GoesOn(StoryAfter(events[..|events| - 1]), events[|events| - 1])
  }

  /** Each event may happen as the story stands. */
  predicate Proper(events: seq<Event>) {
    events == []
    || (Proper(events[..|events| - 1]) && Happens(StoryAfter(events[..|events| - 1]), events[|events| - 1]))
  }

  predicate Aborts(events: seq<Event>) {
    events != []
    && (Aborts(events[..|events| - 1]) || Ends(WordAfter(events[..|events| - 1]), events[|events| - 1]))
  }

  lemma EventTells(s: Story, e: Event)
    requires Possible(s) && Happens(s, e)
    ensures Possible(GoesOn(s, e)) && !Ends(Word(s), e) && Rewritten(Word(s), e) == Word(GoesOn(s, e))
  {
    if e.Ask? {
      TableTells(s, e.request);
    }
  }

  /** In every proper run of any length nothing ends the program, and the word tells the story. */
  lemma {:induction false} WordTellsStory(events: seq<Event>)
    requires Proper(events)
    ensures !Aborts(events) && Possible(StoryAfter(events)) && WordAfter(events) == Word(StoryAfter(events))
  {
    if events != [] {
      var before := events[..|events| - 1];
      WordTellsStory(before);
      EventTells(StoryAfter(before), events[|events| - 1]);
    }
  }

  /**
   In every proper run the word is YieldedSuspended exactly while the coroutine
   rests between two values with a handle held, and AbandonedYieldSuspended
   exactly when the last event was that the last handle went while it rested there.
   */
  lemma {:induction false} RestsExactly(events: seq<Event>)
    requires Proper(events)
    ensures var s := StoryAfter(events);
            WordAfter(events).YieldedSuspended? <==> s.place.Resting? && s.handles.Held?
    ensures WordAfter(events).AbandonedYieldSuspended? <==>
            && events != [] && events[|events| - 1].Ask? && events[|events| - 1].request.status.Abandoned?
            && StoryAfter(events[..|events| - 1]).place.Resting?
  {
    WordTellsStory(events);
    if events != [] {
      WordTellsStory(events[..|events| - 1]);
    }
  }

  /** Whoever resumes a generator that was dropped at rest, or that has not stopped yet, must have cancelled it. */
  lemma ResumeNeedsCancel(events: seq<Event>, final: bool, cancelled: bool)
    requires Proper(events)
    requires WordAfter(events).AbandonedYieldSuspended? || WordAfter(events).Yielded?
    ensures Answer(WordAfter(events), Request(Running, final, cancelled)) == Abort <==> !cancelled
    ensures Proper(events + [Ask(Request(Running, final, cancelled))]) <==> cancelled
  {
    WordTellsStory(events);
    assert (events + [Ask(Request(Running, final, cancelled))])[..|events|] == events;
  }
}
