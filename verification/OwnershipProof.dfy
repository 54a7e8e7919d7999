/** Every step of every coroutine and every call of setOwner keeps the ownership invariant. */
module OwnershipProof {
  import opened Tally
  import opened Ownership

  lemma ChargesNonNegative(s: System, c: nat)
    ensures Charges(s, c) >= 0 && Total(s.threads, Guards(c)) >= 0
  {
    TotalNonNegative(s.threads, ThreadCharges(c));
    TotalNonNegative(s.coroutines, OwnedCharges(c));
    TotalNonNegative(s.threads, Guards(c));
  }

  /** A zero count: no token, no guard, no charge. */
  lemma ZeroMeansNothing(s: System, c: nat)
    requires Conserved(s) && c < |s.coroutines| && Count(s, c) == 0
    ensures Closed(s, c) && Total(s.threads, Guards(c)) == 0
  {
    assert Count(s, c) == Balance(s, c);
    ChargesNonNegative(s, c);
  }

  lemma TokenCounts(s: System, c: nat)
    requires Conserved(s) && c < |s.coroutines| && Token(s.coroutines[c])
    ensures Count(s, c) >= 1
    ensures Count(s, c) == 1 ==> Charges(s, c) == 0
  {
    assert Count(s, c) == Balance(s, c);
    ChargesNonNegative(s, c);
  }

  // ---------------------------------------------------------------------
  // A thread's move
  // ---------------------------------------------------------------------

  /** A thread moves on; at most the owner of its target changes with it. */
  ghost predicate ThreadMoves(s: System, s': System, t: nat, th: Thread, x: nat, co: Coroutine) {
    && t < |s.threads| && x < |s.coroutines|
    && s'.threads == s.threads[t := th] && s'.coroutines == s.coroutines[x := co] && s'.max == s.max
    && (!s.threads[t].pc.Idle? ==> s.threads[t].target == x)
    && co == s.coroutines[x].(owner := co.owner)
  }

  ghost function ThreadShift(s: System, t: nat, th: Thread, x: nat, co: Coroutine, c: nat): int
    requires t < |s.threads| && x < |s.coroutines|
  {
    ThreadCharges(c)(th) - ThreadCharges(c)(s.threads[t]) + OwnedCharges(c)(co) - OwnedCharges(c)(s.coroutines[x])
  }

  lemma ThreadCharge(s: System, s': System, t: nat, th: Thread, x: nat, co: Coroutine, c: nat)
    requires ThreadMoves(s, s', t, th, x, co)
    ensures Charges(s', c) == Charges(s, c) + ThreadShift(s, t, th, x, co, c)
    ensures Total(s'.threads, Guards(c)) == Total(s.threads, Guards(c)) + Guards(c)(th) - Guards(c)(s.threads[t])
  {
    TotalUpdate(s.threads, ThreadCharges(c), t, th);
    TotalUpdate(s.threads, Guards(c), t, th);
    TotalUpdate(s.coroutines, OwnedCharges(c), x, co);
  }

  /** The counts follow what the move does to guards and charges. */
  ghost predicate ThreadCounts(s: System, s': System, t: nat, th: Thread, x: nat, co: Coroutine)
    requires t < |s.threads| && x < |s.coroutines|
  {
    && |s'.counts| == |s.counts|
    && forall c {:trigger Guards(c)} :: 0 <= c < |s.coroutines| ==>
         Count(s', c) == Count(s, c) + Guards(c)(th) - Guards(c)(s.threads[t]) + ThreadShift(s, t, th, x, co, c)
  }

  lemma ThreadConserves(s: System, s': System, t: nat, th: Thread, x: nat, co: Coroutine)
    requires Conserved(s) && ThreadMoves(s, s', t, th, x, co) && ThreadCounts(s, s', t, th, x, co)
    ensures Conserved(s')
  {
    forall c | 0 <= c < |s'.coroutines|
      ensures s'.counts[c] == Balance(s', c)
    {
      assert Count(s, c) == Balance(s, c);
      ThreadCharge(s, s', t, th, x, co, c);
    }
  }

  /** Only a coroutine that runs is charged anew. */
  ghost predicate NoNewCharge(s: System, t: nat, th: Thread, x: nat, co: Coroutine)
    requires t < |s.threads| && x < |s.coroutines|
  {
    forall c {:trigger ThreadShift(s, t, th, x, co, c)} :: 0 <= c < |s.coroutines| ==>
      ThreadShift(s, t, th, x, co, c) <= 0 || Runs(s, c)
  }

  lemma ThreadKeepsZero(s: System, s': System, t: nat, th: Thread, x: nat, co: Coroutine, c: nat)
    requires ThreadMoves(s, s', t, th, x, co) && NoNewCharge(s, t, th, x, co)
    requires c < |s.coroutines| && !s.coroutines[c].stage.Running?
    ensures Charges(s, c) == 0 ==> Charges(s', c) == 0
    ensures Closed(s, c) ==> Closed(s', c)
  {
    assert ThreadShift(s, t, th, x, co, c) <= 0 || Runs(s, c);
    ThreadCharge(s, s', t, th, x, co, c);
    ChargesNonNegative(s', c);
  }

  lemma ThreadFitsOn(s: System, s': System, t: nat, th: Thread, x: nat, co: Coroutine, any: Thread)
    requires ThreadMoves(s, s', t, th, x, co) && NoNewCharge(s, t, th, x, co) && ThreadFits(s, any)
    ensures ThreadFits(s', any)
  {
    if Closed(s, any.target) {
      ThreadKeepsZero(s, s', t, th, x, co, any.target);
    }
  }

  lemma ThreadsFitOn(s: System, s': System, t: nat, th: Thread, x: nat, co: Coroutine)
    requires ThreadsFit(s) && ThreadMoves(s, s', t, th, x, co) && NoNewCharge(s, t, th, x, co) && ThreadFits(s, th)
    ensures ThreadsFit(s')
  {
    forall u | 0 <= u < |s'.threads|
      ensures ThreadFits(s', s'.threads[u])
    {
      if u != t {
        assert ThreadFits(s, s.threads[u]);
      }
      ThreadFitsOn(s, s', t, th, x, co, s'.threads[u]);
    }
  }

  ghost predicate AnotherSignals(s: System, t: nat, c: nat) {
    exists u :: 0 <= u < |s.threads| && u != t && Signals(s.threads[u], c)
  }

  lemma StillSignals(s: System, s': System, t: nat, th: Thread, x: nat, co: Coroutine, c: nat)
    requires ThreadMoves(s, s', t, th, x, co)
    requires AnotherSignals(s, t, c) || Signals(th, c) || (c != x && SomebodySignals(s, c))
    ensures SomebodySignals(s', c)
  {
    if Signals(th, c) {
      assert Signals(s'.threads[t], c);
    } else {
      var u :| 0 <= u < |s.threads| && u != t && Signals(s.threads[u], c);
      assert Signals(s'.threads[u], c);
    }
  }

  /** The duty to look at the owner again is not dropped. */
  ghost predicate DutyKept(s: System, t: nat, th: Thread, x: nat, co: Coroutine) {
    !Token(co) && co.owner.Some? ==> SignalsItself(co.stage) || Signals(th, x) || AnotherSignals(s, t, x)
  }

  ghost predicate ViewFits(s: System, v: View, v': View, x: nat) {
    && x < |v| == |v'|
    && (forall c :: 0 <= c < |v| && c != x ==> v'[c] == v[c])
    && (v'[x].Some? ==> v'[x] == v[x] || Closed(s, x))
  }

  lemma CoroutineFitsOn(s: System, s': System, v: View, v': View, t: nat, th: Thread, x: nat, co: Coroutine, c: nat)
    requires c < |s.coroutines| == |v| && ThreadMoves(s, s', t, th, x, co) && NoNewCharge(s, t, th, x, co)
    requires CoroutineFits(s, v, c) && ViewFits(s, v, v', x) && DutyKept(s, t, th, x, co) && InRange(s, co.owner)
    ensures CoroutineFits(s', v', c)
  {
    if !s.coroutines[c].stage.Running? {
      ThreadKeepsZero(s, s', t, th, x, co, c);
    }
    if (c != x && SomebodySignals(s, c)) || AnotherSignals(s, t, c) || Signals(th, c) {
      StillSignals(s, s', t, th, x, co, c);
    }
  }

  lemma ThreadKeeps(s: System, s': System, v: View, v': View, t: nat, th: Thread, x: nat, co: Coroutine)
    requires Inv(s, v) && ThreadMoves(s, s', t, th, x, co) && ThreadCounts(s, s', t, th, x, co)
    requires NoNewCharge(s, t, th, x, co)
    requires ThreadFits(s, th) && InRange(s, co.owner) && ViewFits(s, v, v', x) && DutyKept(s, t, th, x, co)
    ensures Inv(s', v')
  {
    ThreadConserves(s, s', t, th, x, co);
    ThreadsFitOn(s, s', t, th, x, co);
    forall c | 0 <= c < |s'.coroutines|
      ensures CoroutineFits(s', v', c)
    {
      assert CoroutineFits(s, v, c);
      CoroutineFitsOn(s, s', v, v', t, th, x, co, c);
    }
  }

  // ---------------------------------------------------------------------
  // The accesses of setOwner
  // ---------------------------------------------------------------------

  /** A guard keeps its coroutine's count above zero. */
  lemma GuardCounts(s: System, t: nat)
    requires Conserved(s) && t < |s.threads| && Guarding(s.threads[t].pc) && s.threads[t].target < |s.coroutines|
    ensures Count(s, s.threads[t].target) >= 1
  {
    var c := s.threads[t].target;
    assert Count(s, c) == Balance(s, c);
    ChargesNonNegative(s, c);
    TotalDominates(s.threads, Guards(c), t);
  }

  /** A charge that a thread carries keeps the owner's count above zero. */
  lemma ThreadChargeCounts(s: System, t: nat, c: nat)
    requires Conserved(s) && t < |s.threads| && c < |s.coroutines| && ThreadCharges(c)(s.threads[t]) >= 1
    ensures Count(s, c) >= 1
  {
    assert Count(s, c) == Balance(s, c);
    ChargesNonNegative(s, c);
    TotalDominates(s.threads, ThreadCharges(c), t);
    TotalNonNegative(s.coroutines, OwnedCharges(c));
  }

  /** An access that changes only the thread. */
  lemma Quiet(s: System, s': System, v: View, t: nat, th: Thread, x: nat)
    requires Inv(s, v) && x < |s.coroutines| && ThreadMoves(s, s', t, th, x, s.coroutines[x])
    requires s'.counts == s.counts && ThreadFits(s, th)
    requires Guarding(th.pc) == Guarding(s.threads[t].pc) && (Guarding(th.pc) ==> th.target == x)
    requires forall c :: ThreadCharges(c)(th) == ThreadCharges(c)(s.threads[t])
    requires DutyKept(s, t, th, x, s.coroutines[x])
    ensures Inv(s', v)
  {
    assert CoroutineFits(s, v, x);
    ThreadKeeps(s, s', v, v, t, th, x, s.coroutines[x]);
  }

  /** Whoever had no duty drops none. */
  lemma NoDuty(s: System, v: View, t: nat, th: Thread, x: nat)
    requires Inv(s, v) && t < |s.threads| && x < |s.coroutines| && (Signals(s.threads[t], x) ==> Signals(th, x))
    ensures DutyKept(s, t, th, x, s.coroutines[x])
  {
    assert CoroutineFits(s, v, x);
    if SomebodySignals(s, x) {
      var u :| 0 <= u < |s.threads| && Signals(s.threads[u], x);
      assert u == t ==> Signals(th, x);
    }
  }

  /** A thread that finds the count above zero may leave the owner to somebody else. */
  lemma SomebodyElse(s: System, v: View, t: nat, x: nat)
    requires Inv(s, v) && t < |s.threads| && x < |s.coroutines| && !Guarding(s.threads[t].pc) && Count(s, x) != 0
    ensures DutyKept(s, t, IDLE, x, s.coroutines[x])
  {
    assert CoroutineFits(s, v, x);
    assert Count(s, x) == Balance(s, x);
    if !Token(s.coroutines[x]) && !SignalsItself(s.coroutines[x].stage) && !MayHaveChildren(s.coroutines[x].stage) {
      ChargesNonNegative(s, x);
      var u := TotalSource(s.threads, Guards(x));
      assert Signals(s.threads[u], x) && u != t;
    }
  }

  lemma BeginKeeps(s: System, v: View, t: nat, target: nat, newOwner: Option<nat>)
    requires Inv(s, v) && Enabled(s, SetOwner(t, target, newOwner))
    ensures Inv(With(s, t, Thread(Look, target, newOwner, None)), v)
  {
    NoDuty(s, v, t, Thread(Look, target, newOwner, None), target);
    Quiet(s, With(s, t, Thread(Look, target, newOwner, None)), v, t, Thread(Look, target, newOwner, None), target);
  }

  predicate OnlyLooks(pc: Pc) {
    pc.Look? || pc.TakeCheck? || pc.ZeroCheck? || pc.ThreadCheck?
  }

  /** The thread after a look at a count. */
  function Looked(s: System, th: Thread): Thread {
    match th.pc
    case Look => if Count(s, th.target) == 0 then IDLE else th.(pc := Up)
    case TakeCheck => th.(pc := TakeUp)
    case ZeroCheck => if Count(s, th.target) == 0 then th.(pc := ThreadSignal) else IDLE
    case _ => th.(pc := ThreadDown)
  }

  lemma LookFits(s: System, v: View, t: nat)
    requires Inv(s, v) && t < |s.threads| && OnlyLooks(s.threads[t].pc)
    ensures s.threads[t].target < |s.coroutines| && ThreadFits(s, Looked(s, s.threads[t]))
    ensures Access(s, t) == With(s, t, Looked(s, s.threads[t]))
    ensures DutyKept(s, t, Looked(s, s.threads[t]), s.threads[t].target, s.coroutines[s.threads[t].target])
  {
    var th := s.threads[t];
    assert ThreadFits(s, th);
    if th.pc.ZeroCheck? && Count(s, th.target) != 0 {
      SomebodyElse(s, v, t, th.target);
    } else {
      NoDuty(s, v, t, Looked(s, th), th.target);
    }
    if th.pc.ZeroCheck? && Count(s, th.target) == 0 {
      ZeroMeansNothing(s, th.target);
    } else if th.pc.TakeCheck? {
      TokenCounts(s, Or(th.newOwner));
    } else if th.pc.ThreadCheck? {
      ThreadChargeCounts(s, t, Or(th.former));
    }
  }

  lemma LookKeeps(s: System, v: View, t: nat)
    requires Inv(s, v) && t < |s.threads| && OnlyLooks(s.threads[t].pc)
    ensures s.threads[t].target < |s.coroutines| && Inv(Access(s, t), v) && Access(s, t).failed == s.failed
  {
    LookFits(s, v, t);
    assert ThreadFits(s, s.threads[t]);
    Quiet(s, Access(s, t), v, t, Looked(s, s.threads[t]), s.threads[t].target);
  }

  /** With room, no count is at its maximum. */
  lemma BelowMax(s: System, c: nat)
    requires Conserved(s) && HasRoom(s) && c < |s.coroutines|
    ensures Count(s, c) < s.max
  {
    assert Count(s, c) == Balance(s, c);
    TotalBound(s.threads, Guards(c), 0, 1);
    TotalBound(s.threads, ThreadCharges(c), 0, 1);
    TotalBound(s.coroutines, OwnedCharges(c), 0, 2);
  }

  /** What an access that passes its assertion makes of each part of the state. */
  lemma AccessParts(s: System, t: nat)
    requires t < |s.threads| && s.threads[t].target < |s.coroutines| && ThreadNext(s, t).Some?
    ensures var s', th := Access(s, t), s.threads[t];
            && s'.threads == s.threads[t := ThreadNext(s, t).value] && s'.threads[t] == ThreadNext(s, t).value
            && s'.coroutines == s.coroutines[th.target := s.coroutines[th.target].(owner := OwnerAfter(s, t))]
            && s'.counts == ThreadCount(s, th).counts && s'.max == s.max && s'.failed == s.failed
  {
  }

  /** A thread's move with its bookkeeping. */
  ghost predicate ThreadShape(s: System, s': System, t: nat, th: Thread, x: nat, co: Coroutine) {
    ThreadMoves(s, s', t, th, x, co) && ThreadCounts(s, s', t, th, x, co) && NoNewCharge(s, t, th, x, co)
  }

  /** One count changes by `delta`, and so do the guards or the charges. */
  lemma CountShape(s: System, s': System, t: nat, th: Thread, c: nat, delta: int)
    requires |s.counts| == |s.coroutines| && t < |s.threads| && s.threads[t].target < |s.coroutines|
    requires c < |s.coroutines|
    requires ThreadMoves(s, s', t, th, s.threads[t].target, s.coroutines[s.threads[t].target])
    requires s'.counts == s.counts[c := s.counts[c] + delta]
    requires forall k ::
               Guards(k)(th) + ThreadCharges(k)(th)
               == Guards(k)(s.threads[t]) + ThreadCharges(k)(s.threads[t]) + if k == c then delta else 0
    requires forall k: nat :: ThreadCharges(k)(th) <= ThreadCharges(k)(s.threads[t]) || Runs(s, k)
    ensures ThreadShape(s, s', t, th, s.threads[t].target, s.coroutines[s.threads[t].target])
  {
  }

  /** The guard goes up, and with it the count. */
  lemma GuardUpShape(s: System, t: nat)
    requires |s.counts| == |s.coroutines| && t < |s.threads| && s.threads[t].pc.Up?
    requires s.threads[t].target < |s.coroutines|
    requires Count(s, s.threads[t].target) < s.max
    ensures var s', x := Access(s, t), s.threads[t].target;
            |s'.threads| == |s.threads| && ThreadShape(s, s', t, s'.threads[t], x, s.coroutines[x])
                && s'.failed == s.failed
  {
    AccessParts(s, t);
    CountShape(s, Access(s, t), t, ThreadNext(s, t).value, s.threads[t].target, 1);
  }

  lemma GuardUpKeeps(s: System, v: View, t: nat)
    requires Inv(s, v) && t < |s.threads| && s.threads[t].pc.Up?
    ensures s.threads[t].target < |s.coroutines| && Inv(Access(s, t), v) && Access(s, t).failed == s.failed
  {
    var th := s.threads[t];
    assert ThreadFits(s, th);
    if Count(s, th.target) == 0 {
      ZeroMeansNothing(s, th.target);
    }
    BelowMax(s, th.target);
    GuardUpShape(s, t);
    AccessParts(s, t);
    assert CoroutineFits(s, v, th.target);
    ThreadKeeps(s, Access(s, t), v, v, t, ThreadNext(s, t).value, th.target, s.coroutines[th.target]);
  }

  /** The guard goes down, and with it the count. */
  lemma GuardDownShape(s: System, t: nat)
    requires |s.counts| == |s.coroutines| && t < |s.threads| && s.threads[t].target < |s.coroutines|
    requires (s.threads[t].pc.UndoUp? || s.threads[t].pc.ReleaseGuard?) && Count(s, s.threads[t].target) >= 1
    ensures ThreadNext(s, t).Some? && Access(s, t).failed == s.failed
    ensures var x := s.threads[t].target;
            ThreadShape(s, Access(s, t), t, ThreadNext(s, t).value, x, s.coroutines[x])
  {
    AccessParts(s, t);
    CountShape(s, Access(s, t), t, ThreadNext(s, t).value, s.threads[t].target, -1);
  }

  lemma GuardDownKeeps(s: System, v: View, t: nat)
    requires Inv(s, v) && t < |s.threads| && (s.threads[t].pc.UndoUp? || s.threads[t].pc.ReleaseGuard?)
    ensures s.threads[t].target < |s.coroutines| && Inv(Access(s, t), v) && Access(s, t).failed == s.failed
  {
    var th := s.threads[t];
    assert ThreadFits(s, th);
    GuardCounts(s, t);
    GuardDownShape(s, t);
    assert CoroutineFits(s, v, th.target);
    ThreadKeeps(s, Access(s, t), v, v, t, ThreadNext(s, t).value, th.target, s.coroutines[th.target]);
  }

  lemma TakeUpKeeps(s: System, v: View, t: nat)
    requires Inv(s, v) && t < |s.threads| && s.threads[t].pc.TakeUp?
    ensures s.threads[t].target < |s.coroutines| && Inv(Access(s, t), v) && Access(s, t).failed == s.failed
  {
    var th := s.threads[t];
    assert ThreadFits(s, th);
    TokenCounts(s, Or(th.newOwner));
    BelowMax(s, Or(th.newOwner));
    AccessParts(s, t);
    CountShape(s, Access(s, t), t, th.(pc := Exchange), Or(th.newOwner), 1);
    assert CoroutineFits(s, v, th.target);
    ThreadKeeps(s, Access(s, t), v, v, t, th.(pc := Exchange), th.target, s.coroutines[th.target]);
  }

  /** A withdrawn charge is counted down. */
  lemma GiveKeeps(s: System, v: View, t: nat)
    requires Inv(s, v) && t < |s.threads| && (s.threads[t].pc.GiveOld? || s.threads[t].pc.ThreadDown?)
    ensures s.threads[t].target < |s.coroutines| && Inv(Access(s, t), v) && Access(s, t).failed == s.failed
  {
    var th := s.threads[t];
    assert ThreadFits(s, th);
    ThreadChargeCounts(s, t, Or(th.former));
    AccessParts(s, t);
    CountShape(s, Access(s, t), t, ThreadNext(s, t).value, Or(th.former), -1);
    assert CoroutineFits(s, v, th.target);
    NoDuty(s, v, t, ThreadNext(s, t).value, th.target);
    ThreadKeeps(s, Access(s, t), v, v, t, ThreadNext(s, t).value, th.target, s.coroutines[th.target]);
  }

  /** The owner changes hands between the coroutine and the thread; the charges stay what they are in sum. */
  lemma SwapShape(s: System, s': System, t: nat, th: Thread, co: Coroutine)
    requires |s.counts| == |s.coroutines| && t < |s.threads| && s.threads[t].target < |s.coroutines|
    requires s'.counts == s.counts
    requires ThreadMoves(s, s', t, th, s.threads[t].target, co)
    requires forall k ::
               Guards(k)(th) == Guards(k)(s.threads[t])
               && ThreadCharges(k)(th) + OwnedCharges(k)(co)
                  == ThreadCharges(k)(s.threads[t]) + OwnedCharges(k)(s.coroutines[s.threads[t].target])
    ensures ThreadShape(s, s', t, th, s.threads[t].target, co)
  {
  }

  /** An unpublished charge becomes an owned one; the previous owner's charge is withdrawn. */
  lemma ExchangeKeeps(s: System, v: View, t: nat)
    requires Inv(s, v) && !s.failed && t < |s.threads| && s.threads[t].pc.Exchange?
    ensures s.threads[t].target < |s.coroutines| && Inv(Access(s, t), Track(s, v, ThreadStep(t)))
    ensures Access(s, t).failed == s.failed
  {
    var th := s.threads[t];
    assert ThreadFits(s, th);
    var x := th.target;
    assert CoroutineFits(s, v, x);
    AccessParts(s, t);
    SwapShape(s, Access(s, t), t, ThreadNext(s, t).value, s.coroutines[x].(owner := th.newOwner));
    ThreadKeeps(s, Access(s, t), v, v[x := None], t, ThreadNext(s, t).value, x, s.coroutines[x].(owner := th.newOwner));
  }

  /** The owner is taken out; its charge is withdrawn. */
  lemma SignalKeeps(s: System, v: View, t: nat)
    requires Inv(s, v) && !s.failed && t < |s.threads| && s.threads[t].pc.ThreadSignal?
    ensures s.threads[t].target < |s.coroutines| && Inv(Access(s, t), Track(s, v, ThreadStep(t)))
    ensures Access(s, t).failed == s.failed
  {
    var th := s.threads[t];
    assert ThreadFits(s, th);
    var x := th.target;
    assert CoroutineFits(s, v, x);
    SignalShape(s, t);
    SignalTrack(s, v, t);
    ThreadKeeps(s, Access(s, t), v, Track(s, v, ThreadStep(t)), t, ThreadNext(s, t).value, x,
        s.coroutines[x].(owner := None));
  }

  lemma SignalShape(s: System, t: nat)
    requires |s.counts| == |s.coroutines| && t < |s.threads| && s.threads[t].target < |s.coroutines|
    requires s.threads[t].pc.ThreadSignal?
    ensures ThreadNext(s, t).Some? && Access(s, t).failed == s.failed
    ensures var x := s.threads[t].target;
            ThreadShape(s, Access(s, t), t, ThreadNext(s, t).value, x, s.coroutines[x].(owner := None))
  {
    AccessParts(s, t);
    SwapShape(s, Access(s, t), t, ThreadNext(s, t).value, s.coroutines[s.threads[t].target].(owner := None));
  }

  lemma SignalTrack(s: System, v: View, t: nat)
    requires !s.failed && t < |s.threads| && s.threads[t].pc.ThreadSignal?
    requires s.threads[t].target < |s.coroutines| == |v|
    ensures var x := s.threads[t].target;
            Track(s, v, ThreadStep(t)) == if s.coroutines[x].owner.Some? then v[x := s.coroutines[x].owner] else v
  {
  }

  lemma AccessPreserves(s: System, v: View, t: nat)
    requires Inv(s, v) && Enabled(s, ThreadStep(t))
    ensures s.threads[t].target < |s.coroutines| && Inv(Access(s, t), Track(s, v, ThreadStep(t)))
    ensures !Access(s, t).failed
  {
    assert ThreadFits(s, s.threads[t]);
    var pc := s.threads[t].pc;
    if OnlyLooks(pc) {
      LookKeeps(s, v, t);
    } else if pc.Up? {
      GuardUpKeeps(s, v, t);
    } else if pc.UndoUp? || pc.ReleaseGuard? {
      GuardDownKeeps(s, v, t);
    } else if pc.TakeUp? {
      TakeUpKeeps(s, v, t);
    } else if pc.Exchange? {
      ExchangeKeeps(s, v, t);
    } else if pc.ThreadSignal? {
      SignalKeeps(s, v, t);
    } else {
      GiveKeeps(s, v, t);
    }
  }

  // ---------------------------------------------------------------------
  // A coroutine's move
  // ---------------------------------------------------------------------

  ghost predicate CoroutineMoves(s: System, s': System, c: nat, co: Coroutine) {
    && c < |s.coroutines| && s'.coroutines == s.coroutines[c := co] && s'.threads == s.threads && s'.max == s.max
    && (Token(co) ==> Token(s.coroutines[c]))
    && (s.coroutines[c].stage.Running? && !co.stage.Running? ==> forall t :: 0 <= t < |s.threads| ==>
         s.threads[t].newOwner != Some(c))
  }

  ghost function OwnShift(s: System, c: nat, co: Coroutine, k: nat): int
    requires c < |s.coroutines|
  {
    OwnedCharges(k)(co) - OwnedCharges(k)(s.coroutines[c])
  }

  /** The counts follow what the move does to the token and to the owner's charge; nobody is charged anew. */
  ghost predicate CoroutineCounts(s: System, s': System, c: nat, co: Coroutine)
    requires c < |s.coroutines|
  {
    && |s'.counts| == |s.counts|
    && forall k {:trigger OwnShift(s, c, co, k)} :: 0 <= k < |s.coroutines| ==>
         (OwnShift(s, c, co, k) <= 0
          && Count(s', k) == Count(s, k) + OwnShift(s, c, co, k)
                             + (if k == c then One(Token(co)) - One(Token(s.coroutines[c])) else 0))
  }

  lemma CoroutineCharge(s: System, s': System, c: nat, co: Coroutine, k: nat)
    requires CoroutineMoves(s, s', c, co)
    ensures Charges(s', k) == Charges(s, k) + OwnShift(s, c, co, k)
  {
    TotalUpdate(s.coroutines, OwnedCharges(k), c, co);
  }

  lemma CoroutineConserves(s: System, s': System, c: nat, co: Coroutine)
    requires Conserved(s) && CoroutineMoves(s, s', c, co) && CoroutineCounts(s, s', c, co)
    ensures Conserved(s')
  {
    forall k | 0 <= k < |s'.coroutines|
      ensures s'.counts[k] == Balance(s', k)
    {
      assert Count(s, k) == Balance(s, k);
      CoroutineCharge(s, s', c, co, k);
    }
  }

  lemma CoroutineKeepsZero(s: System, s': System, c: nat, co: Coroutine, k: nat)
    requires CoroutineMoves(s, s', c, co) && CoroutineCounts(s, s', c, co) && k < |s.coroutines|
    ensures Charges(s, k) == 0 ==> Charges(s', k) == 0
    ensures Closed(s, k) ==> Closed(s', k)
  {
    CoroutineCharge(s, s', c, co, k);
    ChargesNonNegative(s', k);
  }

  lemma CoroutineThreadsFit(s: System, s': System, c: nat, co: Coroutine)
    requires ThreadsFit(s) && CoroutineMoves(s, s', c, co) && CoroutineCounts(s, s', c, co)
    ensures ThreadsFit(s')
  {
    forall t | 0 <= t < |s'.threads|
      ensures ThreadFits(s', s'.threads[t])
    {
      assert ThreadFits(s, s.threads[t]);
      if s.threads[t].target < |s.coroutines| {
        CoroutineKeepsZero(s, s', c, co, s.threads[t].target);
      }
    }
  }

  /** What the coroutine itself must bring to its next stage. */
  ghost predicate Arrives(s: System, v: View, c: nat, co: Coroutine)
    requires c < |s.coroutines| == |v|
  {
    && InRange(s, co.owner) && InRange(s, co.former)
    && (Withdrawing(co.stage) <==> co.former.Some?)
    && (!MayHaveChildren(co.stage) ==> Charges(s, c) == 0)
    && (co.event ==> !BeforeEvent(co.stage))
    && (v[c].Some? ==> !Token(co) && Charges(s, c) == 0)
    && (!Token(co) && co.owner.Some? ==> SignalsItself(co.stage) || SomebodySignals(s, c))
  }

  lemma SameSignals(s: System, s': System, k: nat)
    requires s'.threads == s.threads
    ensures SomebodySignals(s', k) == SomebodySignals(s, k)
  {
  }

  lemma CoroutineKeeps(s: System, s': System, v: View, v': View, c: nat, co: Coroutine)
    requires Inv(s, v) && CoroutineMoves(s, s', c, co) && CoroutineCounts(s, s', c, co)
    requires |v'| == |v| && (forall k :: 0 <= k < |v| && k != c ==> v'[k] == v[k]) && Arrives(s, v', c, co)
    ensures Inv(s', v')
  {
    CoroutineConserves(s, s', c, co);
    CoroutineThreadsFit(s, s', c, co);
    forall k | 0 <= k < |s'.coroutines|
      ensures CoroutineFits(s', v', k)
    {
      assert CoroutineFits(s, v, k);
      CoroutineKeepsZero(s, s', c, co, k);
      SameSignals(s, s', k);
    }
  }

  // ---------------------------------------------------------------------
  // The stages
  // ---------------------------------------------------------------------

  lemma OwnChargeCounts(s: System, c: nat, k: nat)
    requires Conserved(s) && c < |s.coroutines| && k < |s.coroutines| && OwnedCharges(k)(s.coroutines[c]) >= 1
    ensures Count(s, k) >= 1
  {
    assert Count(s, k) == Balance(s, k);
    ChargesNonNegative(s, k);
    TotalDominates(s.coroutines, OwnedCharges(k), c);
    TotalNonNegative(s.threads, ThreadCharges(k));
  }

  predicate Passes(stage: Stage) {
    stage.FinalTest? || stage.Publish? || stage.LookOwner? || stage.SignalCheck? || stage.Enqueue? || stage.AssertZero?
    || stage.Waiting? || stage.TaskAssert? || stage.TaskEvent? || stage.TaskCheck?
  }

  /** The assertions of a SyncTask that other threads can make fail. */
  predicate Fails(s: System, c: nat)
    requires c < |s.coroutines|
  {
    (s.coroutines[c].stage.AssertZero? && Count(s, c) != 0)
        || (s.coroutines[c].stage.TaskAssert? && s.coroutines[c].owner.Some?)
  }

  /** What a step that passes its assertion makes of each part of the state. */
  lemma StageParts(s: System, c: nat)
    requires c < |s.coroutines| && StageNext(s, c).Some?
    ensures var s' := StageStep(s, c);
            && s'.coroutines == s.coroutines[c := StageNext(s, c).value] && s'.threads == s.threads
            && s'.counts == StageCounts(s, c).counts && s'.max == s.max && s'.failed == s.failed
  {
  }

  /** A stage that leaves the counts and the owner alone, and what the coroutine brings to the next one. */
  ghost predicate PassesTo(s: System, v: View, c: nat)
    requires c < |s.coroutines| == |v|
  {
    StageNext(s, c).Some? &&
    var co, co' := s.coroutines[c], StageNext(s, c).value;
    && Arrives(s, v, c, co') && co'.owner == co.owner && co'.former == co.former
    && Token(co') == Token(co) && Withdrawing(co'.stage) == Withdrawing(co.stage) && !co.stage.Running?
  }

  /** Such a stage before the token is counted down. */
  lemma EarlyPass(s: System, v: View, c: nat)
    requires Inv(s, v) && c < |s.coroutines| && Passes(s.coroutines[c].stage) && Token(s.coroutines[c])
    ensures PassesTo(s, v, c)
  {
    assert CoroutineFits(s, v, c);
    TokenCounts(s, c);
  }

  /** Such a stage after the token is counted down. */
  lemma LatePass(s: System, v: View, c: nat)
    requires Inv(s, v) && c < |s.coroutines| && Passes(s.coroutines[c].stage) && !Token(s.coroutines[c]) && !Fails(s, c)
    requires !s.coroutines[c].stage.SignalCheck? && !s.coroutines[c].stage.TaskCheck?
    ensures PassesTo(s, v, c)
  {
    assert CoroutineFits(s, v, c);
    if s.coroutines[c].stage.Waiting? && Count(s, c) == 0 {
      ZeroMeansNothing(s, c);
    }
  }

  /** The assertion of signalOwner. */
  lemma CheckPass(s: System, v: View, c: nat)
    requires Inv(s, v) && c < |s.coroutines| && (s.coroutines[c].stage.SignalCheck? || s.coroutines[c].stage.TaskCheck?)
    ensures PassesTo(s, v, c)
  {
    assert CoroutineFits(s, v, c);
    OwnChargeCounts(s, c, s.coroutines[c].former.value);
  }

  lemma PassKeeps(s: System, v: View, c: nat)
    requires Inv(s, v) && !s.failed && c < |s.coroutines| && Passes(s.coroutines[c].stage) && !Fails(s, c)
    ensures Inv(StageStep(s, c), v) && !StageStep(s, c).failed
  {
    if Token(s.coroutines[c]) {
      EarlyPass(s, v, c);
    } else if s.coroutines[c].stage.SignalCheck? || s.coroutines[c].stage.TaskCheck? {
      CheckPass(s, v, c);
    } else {
      LatePass(s, v, c);
    }
    StageParts(s, c);
    OwnCounts(s, StageStep(s, c), c, StageNext(s, c).value, c, 0);
    CoroutineKeeps(s, StageStep(s, c), v, v, c, StageNext(s, c).value);
  }

  /** One count changes by `delta`, and so do the token or the charges. */
  lemma OwnCounts(s: System, s': System, c: nat, co: Coroutine, k: nat, delta: int)
    requires |s.counts| == |s.coroutines| && c < |s.coroutines| && k < |s.coroutines|
    requires s'.counts == s.counts[k := s.counts[k] + delta]
    requires forall j: nat ::
               OwnedCharges(j)(co) <= OwnedCharges(j)(s.coroutines[c])
               && OwnedCharges(j)(co) + (if j == c then One(Token(co)) else 0)
                  == OwnedCharges(j)(s.coroutines[c]) + (if j == c then One(Token(s.coroutines[c])) else 0)
                     + (if j == k then delta else 0)
    ensures CoroutineCounts(s, s', c, co)
  {
  }

  /** The coroutine counts its own token down. */
  lemma TokenKeeps(s: System, v: View, c: nat)
    requires Inv(s, v) && !s.failed && c < |s.coroutines|
    requires (s.coroutines[c].stage.LastDown? || s.coroutines[c].stage.OwnDown?)
    ensures Inv(StageStep(s, c), v) && !StageStep(s, c).failed
  {
    assert CoroutineFits(s, v, c);
    TokenCounts(s, c);
    StageParts(s, c);
    OwnCounts(s, StageStep(s, c), c, StageNext(s, c).value, c, -1);
    CoroutineKeeps(s, StageStep(s, c), v, v, c, StageNext(s, c).value);
  }

  /** The coroutine or its completion task takes its owner out. */
  lemma WithdrawKeeps(s: System, v: View, c: nat)
    requires Inv(s, v) && !s.failed && c < |s.coroutines|
    requires (s.coroutines[c].stage.Signal? || s.coroutines[c].stage.TaskSignal?)
    ensures Inv(StageStep(s, c), Track(s, v, Step(c))) && !StageStep(s, c).failed
  {
    assert CoroutineFits(s, v, c);
    StageParts(s, c);
    OwnCounts(s, StageStep(s, c), c, StageNext(s, c).value, c, 0);
    CoroutineKeeps(s, StageStep(s, c), v, Track(s, v, Step(c)), c, StageNext(s, c).value);
  }

  /** The withdrawn owner is counted down. */
  lemma GiveBackKeeps(s: System, v: View, c: nat)
    requires Inv(s, v) && !s.failed && c < |s.coroutines|
    requires s.coroutines[c].stage.SignalDown? || s.coroutines[c].stage.TaskDown?
    ensures Inv(StageStep(s, c), v) && !StageStep(s, c).failed
  {
    assert CoroutineFits(s, v, c);
    OwnChargeCounts(s, c, s.coroutines[c].former.value);
    GiveBackCounts(s, c);
    CoroutineKeeps(s, StageStep(s, c), v, v, c, StageNext(s, c).value);
  }

  lemma GiveBackCounts(s: System, c: nat)
    requires |s.counts| == |s.coroutines| && c < |s.coroutines|
    requires s.coroutines[c].stage.SignalDown? || s.coroutines[c].stage.TaskDown?
    requires s.coroutines[c].former.Some? && s.coroutines[c].former.value < |s.coroutines|
    requires Count(s, s.coroutines[c].former.value) >= 1
    ensures StageNext(s, c).Some? && StageStep(s, c).failed == s.failed
    ensures CoroutineMoves(s, StageStep(s, c), c, StageNext(s, c).value)
    ensures CoroutineCounts(s, StageStep(s, c), c, StageNext(s, c).value)
  {
    StageParts(s, c);
    OwnCounts(s, StageStep(s, c), c, StageNext(s, c).value, s.coroutines[c].former.value, -1);
  }

  lemma StepPreserves(s: System, v: View, c: nat)
    requires Inv(s, v) && Enabled(s, Step(c))
    ensures Inv(StageStep(s, c), Track(s, v, Step(c)))
    ensures StageStep(s, c).failed <==> Fails(s, c)
  {
    var stage := s.coroutines[c].stage;
    if Fails(s, c) {
      FailKeeps(s, v);
    } else if Passes(stage) {
      PassKeeps(s, v, c);
    } else if stage.LastDown? || stage.OwnDown? {
      TokenKeeps(s, v, c);
    } else if stage.Signal? || stage.TaskSignal? {
      WithdrawKeeps(s, v, c);
    } else {
      GiveBackKeeps(s, v, c);
    }
  }

  lemma FailKeeps(s: System, v: View)
    requires Inv(s, v)
    ensures Inv(Fail(s), v)
  {
    forall c | 0 <= c < |s.coroutines|
      ensures CoroutineFits(Fail(s), v, c) && s.counts[c] == Balance(Fail(s), c)
    {
      assert CoroutineFits(s, v, c);
      assert s.counts[c] == Balance(s, c);
      assert Charges(Fail(s), c) == Charges(s, c);
    }
    forall t | 0 <= t < |s.threads|
      ensures ThreadFits(Fail(s), s.threads[t])
    {
      assert ThreadFits(s, s.threads[t]);
      assert Charges(Fail(s), s.threads[t].target) == Charges(s, s.threads[t].target);
    }
  }

  lemma FinishKeeps(s: System, v: View, c: nat)
    requires Inv(s, v) && Enabled(s, Finish(c))
    ensures Inv(Goto(s, c, FinalTest), v)
  {
    assert CoroutineFits(s, v, c);
    CoroutineKeeps(s, Goto(s, c, FinalTest), v, v, c, s.coroutines[c].(stage := FinalTest));
  }

  lemma InitialInv(s: System)
    requires Initial(s)
    ensures Inv(s, seq(|s.coroutines|, c => None))
  {
    var v: View := seq(|s.coroutines|, c => None);
    forall c | 0 <= c < |s.coroutines|
      ensures s.counts[c] == Balance(s, c) && CoroutineFits(s, v, c)
    {
      TotalZero(s.threads, Guards(c));
      TotalZero(s.threads, ThreadCharges(c));
      TotalZero(s.coroutines, OwnedCharges(c));
    }
  }

  /** The invariant is kept by every move, and only two assertions of a SyncTask can fail. */
  lemma Preserved(s: System, v: View, m: Move)
    requires Inv(s, v)
    ensures Inv(Next(s, m), Track(s, v, m))
    ensures Next(s, m).failed <==> s.failed || (Enabled(s, m) && m.Step? && Fails(s, m.c))
  {
    if Enabled(s, m) {
      match m
      case Finish(c) => FinishKeeps(s, v, c);
      case Step(c) => StepPreserves(s, v, c);
      case SetOwner(t, target, newOwner) => BeginKeeps(s, v, t, target, newOwner);
      case ThreadStep(t) => AccessPreserves(s, v, t);
    }
  }
}
