/** Every access of every thread keeps the event invariant. */
module CountDownEventProof {
  import opened Tally
  import opened CountDownEvent

  ghost predicate Moved(e: Event, e': Event, t: nat, th: Thread) {
    t < |e.threads| && e'.threads == e.threads[t := th] && e'.max == e.max
  }

  lemma HandCount(th: Thread, c: nat)
    ensures Hand(th)[c] == One(th.hand == c != NULL) + One(th.removed == c != NULL)
  {
  }

  lemma LocatedFrame(e: Event, e': Event, t: nat, th: Thread)
    requires Located(e) && Moved(e, e', t, th) && NULL !in e'.custody
    requires forall c: nat ::
               multiset(e'.wait)[c] + Hand(th)[c] + One(c in e.custody) ==
               multiset(e.wait)[c] + Hand(e.threads[t])[c] + One(c in e'.custody)
    ensures Located(e')
  {
    forall c: nat
      ensures Copies(e', c) == One(c in e'.custody)
    {
      GatherUpdate(e.threads, Hand, t, th);
      assert Hand(e.threads[t])[c] <= Gather(e.threads, Hand)[c];
      assert Copies(e, c) == One(c in e.custody);
    }
  }

  lemma LocatedKeep(e: Event, e': Event, t: nat, th: Thread)
    requires Located(e) && Moved(e, e', t, th) && e'.wait == e.wait && e'.custody == e.custody
    requires th.hand == e.threads[t].hand && th.removed == e.threads[t].removed
    ensures Located(e')
  {
    LocatedFrame(e, e', t, th);
  }

  lemma KnowsFrame(e: Event, e': Event, t: nat, th: Thread)
    requires AllKnow(e) && Moved(e, e', t, th) && ThreadKnows(e', th)
    ensures AllKnow(e')
  {
    forall u | 0 <= u < |e'.threads| && u != t
      ensures ThreadKnows(e', e'.threads[u])
    {
      assert e'.threads[u] == e.threads[u] && ThreadKnows(e, e.threads[u]);
    }
  }

  /** Whoever stops looking leaves a non-zero count or an empty queue behind. */
  lemma NotStrandedFrame(e: Event, e': Event, t: nat, th: Thread)
    requires NotStranded(e) && Moved(e, e', t, th)
    requires e'.count == 0 && e'.wait != [] ==>
               Repairs(th.pc) || (e.count == 0 && e.wait != [] && !Repairs(e.threads[t].pc))
    ensures NotStranded(e')
  {
    if e'.count == 0 && e'.wait != [] {
      if Repairs(th.pc) {
        assert Repairs(e'.threads[t].pc);
      } else {
        var u :| 0 <= u < |e.threads| && Repairs(e.threads[u].pc);
        assert Repairs(e'.threads[u].pc);
      }
    }
  }

  // ---------------------------------------------------------------------
  // Classes of accesses
  // ---------------------------------------------------------------------

  /** An access that leaves the wait queue alone. */
  lemma Look(e: Event, e': Event, t: nat, th: Thread)
    requires Inv(e) && Moved(e, e', t, th) && ThreadKnows(e', th)
    requires e'.wait == e.wait && e'.custody == e.custody && 0 <= e'.count <= e.max
    requires th.hand == e.threads[t].hand && th.removed == e.threads[t].removed
    requires e'.count == 0 && e.wait != [] ==> Repairs(th.pc) || (e.count == 0 && !Repairs(e.threads[t].pc))
    ensures Inv(e')
  {
    LocatedKeep(e, e', t, th);
    KnowsFrame(e, e', t, th);
    NotStrandedFrame(e, e', t, th);
  }

  lemma TakeLocated(e: Event, e': Event, t: nat, th: Thread)
    requires Located(e) && Moved(e, e', t, th) && e.wait != [] && e'.wait == e.wait[1..] && e'.custody == e.custody
    requires e.threads[t].hand == NULL
    requires (th.hand == e.wait[0] && th.removed == e.threads[t].removed)
             || (th.hand == NULL && e.threads[t].removed == NULL && th.removed == e.wait[0])
    ensures Located(e')
  {
    Dequeued(e);
    forall c: nat
      ensures multiset(e'.wait)[c] + Hand(th)[c] == multiset(e.wait)[c] + Hand(e.threads[t])[c]
    {
      FrontCount(e.wait, c);
      HandCount(th, c);
      HandCount(e.threads[t], c);
    }
    LocatedFrame(e, e', t, th);
  }

  lemma Dequeued(e: Event)
    requires Located(e) && e.wait != []
    ensures e.wait[0] != NULL
  {
    assert Copies(e, NULL) == 0;
    assert e.wait[0] in multiset(e.wait);
  }

  /** The front of the wait queue goes into the thread's hand, or turns out to be what remove looks for. */
  lemma Take(e: Event, e': Event, t: nat, th: Thread)
    requires Inv(e) && Moved(e, e', t, th) && ThreadKnows(e', th) && e'.count == e.count && e'.custody == e.custody
    requires e.wait != [] && e'.wait == e.wait[1..] && e.threads[t].hand == NULL
    requires (th.hand == e.wait[0] && th.removed == e.threads[t].removed)
             || (th.hand == NULL && e.threads[t].removed == NULL && th.removed == e.wait[0])
    requires Repairs(th.pc)
    ensures Inv(e')
  {
    TakeLocated(e, e', t, th);
    KnowsFrame(e, e', t, th);
    NotStrandedFrame(e, e', t, th);
  }

  /** A coroutine in hand goes to the end of the wait queue. */
  lemma Put(e: Event, e': Event, t: nat, th: Thread)
    requires Inv(e) && Moved(e, e', t, th) && ThreadKnows(e', th) && e'.count == e.count && e'.custody == e.custody
    requires e.threads[t].hand != NULL && e'.wait == e.wait + [e.threads[t].hand]
    requires th.hand == NULL && th.removed == e.threads[t].removed && Repairs(th.pc)
    ensures Inv(e')
  {
    PutLocated(e, e', t, th);
    KnowsFrame(e, e', t, th);
    NotStrandedFrame(e, e', t, th);
  }

  lemma PutLocated(e: Event, e': Event, t: nat, th: Thread)
    requires Located(e) && Moved(e, e', t, th) && e'.custody == e.custody
    requires e.threads[t].hand != NULL && e'.wait == e.wait + [e.threads[t].hand]
    requires th.hand == NULL && th.removed == e.threads[t].removed
    ensures Located(e')
  {
    forall c: nat
      ensures multiset(e'.wait)[c] + Hand(th)[c] == multiset(e.wait)[c] + Hand(e.threads[t])[c]
    {
      assert multiset(e'.wait)[c] == multiset(e.wait)[c] + One(c == e.threads[t].hand);
      HandCount(th, c);
      HandCount(e.threads[t], c);
    }
    LocatedFrame(e, e', t, th);
  }

  /** A coroutine that a thread holds leaves the custody of the event. */
  lemma InCustody(e: Event, t: nat, c: nat)
    requires Located(e) && t < |e.threads| && c != NULL && (e.threads[t].hand == c || e.threads[t].removed == c)
    ensures c in e.custody && !(e.threads[t].hand == c == e.threads[t].removed)
  {
    HandCount(e.threads[t], c);
    GatherContains(e.threads, Hand, t);
    assert Copies(e, c) == One(c in e.custody);
  }

  lemma GiveLocated(e: Event, e': Event, t: nat, th: Thread, c: nat)
    requires Located(e) && Moved(e, e', t, th) && c in e.custody && e'.wait == e.wait && e'.custody == e.custody - {c}
    requires (e.threads[t].hand == c && th.hand == NULL && th.removed == e.threads[t].removed)
             || (e.threads[t].removed == c && th.removed == NULL && th.hand == e.threads[t].hand)
    ensures Located(e')
  {
    forall x: nat
      ensures Hand(th)[x] + One(x in e.custody) == Hand(e.threads[t])[x] + One(x in e'.custody)
    {
      HandCount(th, x);
      HandCount(e.threads[t], x);
    }
    LocatedFrame(e, e', t, th);
  }

  lemma Give(e: Event, e': Event, t: nat, th: Thread, c: nat)
    requires Inv(e) && Moved(e, e', t, th) && ThreadKnows(e', th) && e'.count == e.count && c != NULL
    requires e'.wait == e.wait && e'.custody == e.custody - {c}
    requires (e.threads[t].hand == c && th.hand == NULL && th.removed == e.threads[t].removed)
             || (e.threads[t].removed == c && th.removed == NULL && th.hand == e.threads[t].hand)
    requires Repairs(th.pc) || !Repairs(e.threads[t].pc)
    ensures Inv(e')
  {
    InCustody(e, t, c);
    GiveLocated(e, e', t, th, c);
    KnowsFrame(e, e', t, th);
    NotStrandedFrame(e, e', t, th);
  }

  // ---------------------------------------------------------------------
  // All moves
  // ---------------------------------------------------------------------

  lemma InitialInv(e: Event)
    requires Initial(e)
    ensures Inv(e)
  {
    GatherNothing(e.threads, Hand);
  }

  lemma StartPreserves(e: Event, t: nat, call: Call)
    requires Inv(e) && Enabled(e, Begin(t, call))
    ensures Inv(Start(e, t, call))
  {
    var e' := Start(e, t, call);
    if call.Enqueue? {
      EnlistLocated(e, e', t, e'.threads[t], call.c);
      KnowsFrame(e, e', t, e'.threads[t]);
      NotStrandedFrame(e, e', t, e'.threads[t]);
    } else {
      Look(e, e', t, e'.threads[t]);
    }
  }

  lemma EnlistLocated(e: Event, e': Event, t: nat, th: Thread, c: nat)
    requires Located(e) && Moved(e, e', t, th) && c != NULL && c !in e.custody
    requires e.threads[t] == IDLE && th == IDLE.(pc := EnlistZero, hand := c) && e'.wait == e.wait
    requires e'.custody == e.custody + {c}
    ensures Located(e')
  {
    forall x: nat
      ensures Hand(th)[x] + One(x in e.custody) == Hand(e.threads[t])[x] + One(x in e'.custody)
    {
      HandCount(th, x);
      HandCount(e.threads[t], x);
    }
    LocatedFrame(e, e', t, th);
  }

  /** Accesses that neither move a coroutine nor end its custody. */
  predicate Looks(e: Event, th: Thread) {
    match th.pc
    case DownLoad => true
    case DownCas => true
    case UpLoad => true
    case UpCas => true
    case WakeDequeue => e.wait == []
    case WakeCheck => true
    case WakeAgain => true
    case EnlistZero => e.count != 0
    case EnlistCheck => true
    case RemoveZero => true
    case RemoveCount => true
    case RemoveTake => th.left == 0 || e.wait == []
    case RemoveCheck => true
    case _ => false
  }

  /** What an access that looks amounts to. */
  ghost predicate Looked(e: Event, e': Event, t: nat) {
    && t < |e.threads| == |e'.threads|
    && Moved(e, e', t, e'.threads[t]) && ThreadKnows(e', e'.threads[t])
    && e'.wait == e.wait && e'.custody == e.custody && 0 <= e'.count <= e.max
    && e'.threads[t].hand == e.threads[t].hand && e'.threads[t].removed == e.threads[t].removed
    && (e'.count == 0 && e.wait != [] ==>
          Repairs(e'.threads[t].pc) || (e.count == 0 && !Repairs(e.threads[t].pc)))
  }

  predicate Counts(pc: Pc) {
    pc.DownLoad? || pc.DownCas? || pc.UpLoad? || pc.UpCas?
  }

  lemma CountStep(e: Event, t: nat, weak: bool, turns: nat)
    requires t < |e.threads| && ThreadKnows(e, e.threads[t]) && Counts(e.threads[t].pc) && 0 <= e.count <= e.max
    ensures Looked(e, Settle(Access(e, t, weak, turns), t), t)
  {
  }

  lemma LookStep(e: Event, t: nat, weak: bool, turns: nat)
    requires t < |e.threads| && ThreadKnows(e, e.threads[t]) && Looks(e, e.threads[t]) && 0 <= e.count <= e.max
    ensures Looked(e, Settle(Access(e, t, weak, turns), t), t)
  {
    if Counts(e.threads[t].pc) {
      CountStep(e, t, weak, turns);
    }
  }

  lemma AccessPreserves(e: Event, t: nat, weak: bool, turns: nat)
    requires Inv(e) && t < |e.threads| && !e.threads[t].pc.Idle?
    ensures Inv(Settle(Access(e, t, weak, turns), t))
  {
    var th := e.threads[t];
    assert ThreadKnows(e, th);
    if Looks(e, th) {
      LookStep(e, t, weak, turns);
      Look(e, Settle(Access(e, t, weak, turns), t), t, Settle(Access(e, t, weak, turns), t).threads[t]);
    } else {
      QueueAccess(e, t, weak, turns);
    }
  }

  /** Accesses that move a coroutine or end its custody. */
  lemma QueueAccess(e: Event, t: nat, weak: bool, turns: nat)
    requires Inv(e) && t < |e.threads| && !e.threads[t].pc.Idle? && !Looks(e, e.threads[t])
    ensures Inv(Settle(Access(e, t, weak, turns), t))
  {
    match e.threads[t].pc
    case WakeDequeue => WakeTakes(e, t);
    case RemoveTake => RemoveTakes(e, t);
    case WakeEnqueue => Puts(e, t, WakeAgain);
    case EnlistPut => Puts(e, t, EnlistCheck);
    case RemovePut => Puts(e, t, RemoveTake);
    case WakeSchedule => WakeSchedules(e, t);
    case EnlistZero => Refuses(e, t);
    case RemovedSchedule => RemovedScheduled(e, t);
  }

  lemma WakeTakes(e: Event, t: nat)
    requires Inv(e) && t < |e.threads| && e.threads[t].pc.WakeDequeue? && e.wait != []
    ensures Inv(Access(e, t, false, 0))
  {
    assert ThreadKnows(e, e.threads[t]);
    Dequeued(e);
    Take(e, Access(e, t, false, 0), t, e.threads[t].(pc := WakeCheck, hand := e.wait[0]));
  }

  lemma RemoveTakes(e: Event, t: nat)
    requires Inv(e) && t < |e.threads| && e.threads[t].pc.RemoveTake? && e.threads[t].left > 0 && e.wait != []
    ensures Inv(Access(e, t, false, 0))
  {
    assert ThreadKnows(e, e.threads[t]);
    Dequeued(e);
    Take(e, Access(e, t, false, 0), t, Access(e, t, false, 0).threads[t]);
  }

  lemma Puts(e: Event, t: nat, pc: Pc)
    requires Inv(e) && t < |e.threads|
    requires (e.threads[t].pc.WakeEnqueue? && pc.WakeAgain?) || (e.threads[t].pc.EnlistPut? && pc.EnlistCheck?)
             || (e.threads[t].pc.RemovePut? && pc.RemoveTake?)
    ensures Inv(With(e.(wait := e.wait + [e.threads[t].hand]), t, e.threads[t].(pc := pc, hand := NULL)))
  {
    assert ThreadKnows(e, e.threads[t]);
    Put(e, With(e.(wait := e.wait + [e.threads[t].hand]), t, e.threads[t].(pc := pc, hand := NULL)), t,
        e.threads[t].(pc := pc, hand := NULL));
  }

  lemma WakeSchedules(e: Event, t: nat)
    requires Inv(e) && t < |e.threads| && e.threads[t].pc.WakeSchedule?
    ensures Inv(Access(e, t, false, 0))
  {
    assert ThreadKnows(e, e.threads[t]);
    Give(e, Access(e, t, false, 0), t, e.threads[t].(pc := WakeAgain, hand := NULL), e.threads[t].hand);
  }

  lemma Refuses(e: Event, t: nat)
    requires Inv(e) && t < |e.threads| && e.threads[t].pc.EnlistZero? && e.count == 0
    ensures Inv(Settle(Access(e, t, false, 0), t))
  {
    assert ThreadKnows(e, e.threads[t]);
    var e' := With(e.(custody := e.custody - {e.threads[t].hand}), t, IDLE);
    assert Settle(e', t) == e';
    Give(e, e', t, IDLE, e.threads[t].hand);
  }

  lemma RemovedScheduled(e: Event, t: nat)
    requires Inv(e) && t < |e.threads| && e.threads[t].pc.RemovedSchedule?
    ensures Inv(Settle(Access(e, t, false, 0), t))
  {
    assert ThreadKnows(e, e.threads[t]);
    var e' := With(e.(custody := e.custody - {e.threads[t].removed}), t, IDLE);
    assert Settle(e', t) == e';
    Give(e, e', t, IDLE, e.threads[t].removed);
  }

  /** The invariant is kept by every move. */
  lemma Preserved(e: Event, m: Move)
    requires Inv(e)
    ensures Inv(Next(e, m))
  {
    if Enabled(e, m) {
      match m
      case Begin(t, call) => StartPreserves(e, t, call);
      case Step(t, weak, turns) => AccessPreserves(e, t, weak, turns);
    }
  }
}
