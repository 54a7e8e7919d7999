/**
 The automatic reset event as a machine of interleaved accesses: one waiter and
 any number of threads that call `set` or `trySet`, over an atomic word, a mutex
 and a condition variable with spurious wake-ups.
 */
module AutoResetEvent {

  datatype Word = Set | NotSet | Unset

  /** The next access of the waiter. */
  datatype WaiterPc =
    | Away
    | EnterCas          // m_state.compare_exchange_strong(None, NotSet)
    | EnterAssert       // assert(prevState == Set)
    | EnterClear        // m_state = None
    | Lock              // std::unique_lock lock { m_mutex }
    | Check             // if (m_state == Set)
    | CheckClear        // m_state = None
    | Predicate         // the predicate of m_cv.wait
    | Sleep             // m_cv.wait releases the mutex and blocks
    | Blocked
    | Relock            // m_cv.wait acquires the mutex again
    | FinalAssert       // assert(m_state == Set)
    | FinalClear        // m_state = None
    | Unlock

  datatype SetterPc =
    | Idle
    | Exchange          // set: m_state.exchange(Set)
    | SetLock           // set: std::unique_lock lock { m_mutex }
    | SetNotify         // set: m_cv.notify_one()
    | TryLock           // trySet: m_mutex.try_lock()
    | TryExchange       // trySet: m_state.exchange(Set)
    | TryNotify         // trySet: m_cv.notify_one()
    | SetterUnlock

  /** `mutex` is 0 when free, 1 when the waiter holds it, and s + 2 when setter s does. */
  datatype Event = Event(word: Word, mutex: nat, waiter: WaiterPc, read: Word, setters: seq<SetterPc>, failed: bool)

  datatype Move = Wait | WaiterStep | Spurious | CallSet(s: nat) | CallTrySet(s: nat) | SetterStep(s: nat)

  predicate Enabled(e: Event, m: Move) {
    && !e.failed
    && match m
       case Wait => e.waiter.Away?
       case WaiterStep => !e.waiter.Away? && !e.waiter.Blocked? && (e.waiter.Lock? || e.waiter.Relock? ==> e.mutex == 0)
       case Spurious => e.waiter.Blocked?
       case CallSet(s) => s < |e.setters| && e.setters[s].Idle?
       case CallTrySet(s) => s < |e.setters| && e.setters[s].Idle?
       case SetterStep(s) => s < |e.setters| && !e.setters[s].Idle? && (e.setters[s].SetLock? ==> e.mutex == 0)
  }

  function WaiterAccess(e: Event): Event {
    match e.waiter
    case EnterCas => if e.word.Unset? then e.(word := NotSet, waiter := Lock)
      else e.(read := e.word, waiter := EnterAssert)
    case EnterAssert => if e.read.Set? then e.(waiter := EnterClear) else e.(failed := true)
    case EnterClear => e.(word := Unset, waiter := Away)
    case Lock => e.(mutex := 1, waiter := Check)
    case Check => e.(waiter := if e.word.Set? then CheckClear else Predicate)
    case CheckClear => e.(word := Unset, waiter := Unlock)
    case Predicate => e.(waiter := if e.word.Set? then FinalAssert else Sleep)
    case Sleep => e.(mutex := 0, waiter := Blocked)
    case Relock => e.(mutex := 1, waiter := Predicate)
    case FinalAssert => if e.word.Set? then e.(waiter := FinalClear) else e.(failed := true)
    case FinalClear => e.(word := Unset, waiter := Unlock)
    case Unlock => e.(mutex := 0, waiter := Away)
    case _ => e
  }

  function Goto(e: Event, s: nat, pc: SetterPc): Event
    requires s < |e.setters|
  {
    e.(setters := e.setters[s := pc])
  }

  function Notify(e: Event): Event {
    if e.waiter.Blocked? then e.(waiter := Relock) else e
  }

  function SetterAccess(e: Event, s: nat): Event
    requires s < |e.setters|
  {
    match e.setters[s]
    case Idle => e
    case Exchange => Goto(e.(word := Set), s, if e.word.NotSet? then SetLock else Idle)
    case SetLock => Goto(e.(mutex := s + 2), s, SetNotify)
    case SetNotify => Goto(Notify(e), s, SetterUnlock)
    case TryLock => if e.mutex == 0 then Goto(e.(mutex := s + 2), s, TryExchange) else Goto(e, s, Idle)
    case TryExchange => Goto(e.(word := Set), s, TryNotify)
    case TryNotify => Goto(Notify(e), s, SetterUnlock)
    case SetterUnlock => Goto(e.(mutex := 0), s, Idle)
  }

  /** A move that is not enabled changes nothing. */
  function Next(e: Event, m: Move): Event {
    if !Enabled(e, m) then e else
    match m
    case Wait => e.(waiter := EnterCas)
    case WaiterStep => WaiterAccess(e)
    case Spurious => e.(waiter := Relock)
    case CallSet(s) => Goto(e, s, Exchange)
    case CallTrySet(s) => Goto(e, s, TryLock)
    case SetterStep(s) => SetterAccess(e, s)
  }

  ghost predicate Initial(e: Event) {
    && !e.word.NotSet? && e.mutex == 0 && e.waiter.Away? && !e.failed
    && forall s :: 0 <= s < |e.setters| ==> e.setters[s].Idle?
  }

  // ---------------------------------------------------------------------
  // The invariant
  // ---------------------------------------------------------------------

  predicate WaiterHolds(pc: WaiterPc) {
    pc.Check? || pc.CheckClear? || pc.Predicate? || pc.Sleep? || pc.FinalAssert? || pc.FinalClear? || pc.Unlock?
  }

  predicate SetterHolds(pc: SetterPc) {
    pc.SetNotify? || pc.TryExchange? || pc.TryNotify? || pc.SetterUnlock?
  }

  /** The waiter has announced itself and not yet seen the event set. */
  predicate Announced(pc: WaiterPc) {
    pc.Lock? || pc.Check? || pc.Predicate? || pc.Sleep? || pc.Blocked? || pc.Relock?
  }

  /** The waiter has seen the event set and not yet cleared it. */
  predicate SawSet(pc: WaiterPc) {
    pc.EnterClear? || pc.CheckClear? || pc.FinalAssert? || pc.FinalClear?
  }

  /** Past the exchange that set the event, and still to notify. */
  predicate WillNotify(pc: SetterPc) {
    pc.SetLock? || pc.SetNotify? || pc.TryNotify?
  }

  ghost predicate SomebodyNotifies(e: Event) {
    exists s :: 0 <= s < |e.setters| && WillNotify(e.setters[s])
  }

  ghost predicate Inv(e: Event) {
    && !e.failed
    && (WaiterHolds(e.waiter) <==> e.mutex == 1)
    && (forall s {:trigger e.setters[s]} :: 0 <= s < |e.setters| ==> (SetterHolds(e.setters[s]) <==> e.mutex == s + 2))
    && e.mutex < |e.setters| + 2
    && (e.word.NotSet? ==> Announced(e.waiter))
    && (e.word.Unset? ==> !Announced(e.waiter) && !SawSet(e.waiter) && !e.waiter.EnterAssert?)
    && (SawSet(e.waiter) ==> e.word.Set?)
    && (e.waiter.EnterAssert? ==> e.word.Set? && e.read.Set?)
    && (e.word.Set? && (e.waiter.Sleep? || e.waiter.Blocked?) ==> SomebodyNotifies(e))
  }

  lemma InitialInv(e: Event)
    requires Initial(e)
    ensures Inv(e)
  {
  }

  lemma WaiterPreserves(e: Event)
    requires Inv(e) && (Enabled(e, WaiterStep) || Enabled(e, Spurious) || Enabled(e, Wait))
    ensures Inv(Next(e, WaiterStep)) && Inv(Next(e, Spurious)) && Inv(Next(e, Wait))
  {
  }

  lemma StillNotifies(e: Event, e': Event, s: nat, pc: SetterPc)
    requires s < |e.setters| && e'.setters == e.setters[s := pc]
    requires WillNotify(pc) || (SomebodyNotifies(e) && !WillNotify(e.setters[s]))
    ensures SomebodyNotifies(e')
  {
    if WillNotify(pc) {
      assert WillNotify(e'.setters[s]);
    } else {
      var u :| 0 <= u < |e.setters| && WillNotify(e.setters[u]);
      assert WillNotify(e'.setters[u]);
    }
  }

  lemma SetterPreserves(e: Event, s: nat)
    requires Inv(e) && Enabled(e, SetterStep(s))
    ensures Inv(SetterAccess(e, s))
  {
    var e' := SetterAccess(e, s);
    if e'.word.Set? && (e'.waiter.Sleep? || e'.waiter.Blocked?) {
      StillNotifies(e, e', s, e'.setters[s]);
    }
  }

  lemma CallPreserves(e: Event, s: nat, pc: SetterPc)
    requires Inv(e) && s < |e.setters| && e.setters[s].Idle? && (pc.Exchange? || pc.TryLock?)
    ensures Inv(Goto(e, s, pc))
  {
    if SomebodyNotifies(e) {
      StillNotifies(e, Goto(e, s, pc), s, pc);
    }
  }

  /** The invariant is kept by every move. */
  lemma Preserved(e: Event, m: Move)
    requires Inv(e)
    ensures Inv(Next(e, m))
  {
    if Enabled(e, m) {
      match m
      case CallSet(s) => CallPreserves(e, s, Exchange);
      case CallTrySet(s) => CallPreserves(e, s, TryLock);
      case SetterStep(s) => SetterPreserves(e, s);
      case _ => WaiterPreserves(e);
    }
  }

  // ---------------------------------------------------------------------
  // What the event promises
  // ---------------------------------------------------------------------

  /** A run so far, with how often the event was set and how often a wait consumed it. */
  datatype History = History(event: Event, sets: nat, consumed: nat)

  /** An exchange that turns the flag on. */
  predicate TurnsOn(e: Event, m: Move) {
    Enabled(e, m) && m.SetterStep? && (e.setters[m.s].Exchange? || e.setters[m.s].TryExchange?) && !e.word.Set?
  }

  /** The store with which a wait clears the flag. */
  predicate TurnsOff(e: Event, m: Move) {
    Enabled(e, m) && m.WaiterStep? && (e.waiter.EnterClear? || e.waiter.CheckClear? || e.waiter.FinalClear?)
  }

  function Advance(h: History, m: Move): History {
    History(Next(h.event, m), h.sets + (if TurnsOn(h.event, m) then 1 else 0),
        h.consumed + (if TurnsOff(h.event, m) then 1 else 0))
  }

  function Execute(e: Event, moves: seq<Move>): History {
    if moves == [] then History(e, if e.word.Set? then 1 else 0, 0)
    else Advance(Execute(e, moves[..|moves| - 1]), moves[|moves| - 1])
  }

  lemma {:induction false} Reachable(e: Event, moves: seq<Move>)
    requires Initial(e)
    ensures Inv(Execute(e, moves).event)
  {
    if moves == [] {
      InitialInv(e);
    } else {
      Reachable(e, moves[..|moves| - 1]);
      Preserved(Execute(e, moves[..|moves| - 1]).event, moves[|moves| - 1]);
    }
  }

  /** The flag goes up only at an exchange and down only at the store that ends a wait. */
  lemma FlagStep(e: Event, m: Move)
    requires Inv(e)
    ensures Next(e, m).word.Set? == (TurnsOn(e, m) || (e.word.Set? && !TurnsOff(e, m)))
    ensures TurnsOff(e, m) ==> e.word.Set?
  {
  }

  /** The event is a flag: each wait that returns has consumed one setting of it, and none is consumed twice. */
  lemma {:induction false} EachSettingConsumedOnce(e: Event, moves: seq<Move>)
    requires Initial(e)
    ensures var h := Execute(e, moves); h.sets == h.consumed + if h.event.word.Set? then 1 else 0
  {
    if moves != [] {
      EachSettingConsumedOnce(e, moves[..|moves| - 1]);
      Reachable(e, moves[..|moves| - 1]);
      FlagStep(Execute(e, moves[..|moves| - 1]).event, moves[|moves| - 1]);
    }
  }

  /** A setter that will notify, or one that holds the mutex on its way, can move. */
  ghost predicate SetterCanMove(e: Event) {
    exists s :: 0 <= s < |e.setters| && Enabled(e, SetterStep(s))
  }

  lemma NotifierCanMove(e: Event)
    requires Inv(e) && e.waiter.Blocked? && SomebodyNotifies(e)
    ensures SetterCanMove(e)
  {
    var s :| 0 <= s < |e.setters| && WillNotify(e.setters[s]);
    if e.mutex != 0 {
      assert SetterHolds(e.setters[e.mutex - 2]);
      assert Enabled(e, SetterStep(e.mutex - 2));
    } else {
      assert Enabled(e, SetterStep(s));
    }
  }

  /**
   No set is lost: while the event is set and the waiter blocked, a setter is
   between its exchange and its notification, and can move.
   */
  lemma {:induction false} NoLostSet(e: Event, moves: seq<Move>)
    requires Initial(e)
    ensures !Execute(e, moves).event.failed
    ensures var now := Execute(e, moves).event;
            now.word.Set? && now.waiter.Blocked? ==> SomebodyNotifies(now) && SetterCanMove(now)
  {
    Reachable(e, moves);
    var now := Execute(e, moves).event;
    if now.word.Set? && now.waiter.Blocked? {
      NotifierCanMove(now);
    }
  }
}
