/** What the barrier promises its participants, over every run and any number of rounds. */
module AsyncBarrierTheorems {
  import opened Tally
  import opened AsyncBarrier
  import opened AsyncBarrierProof

  /** A run so far: the participants resumed by a release, and those that released a round themselves. */
  datatype History = History(barrier: Barrier, view: View, scheduled: multiset<nat>, releases: multiset<nat>)

  function ScheduledBy(b: Barrier, m: Move): multiset<nat> {
    if m.Step? && Enabled(b, m) && b.members[m.p].pc.ReleaseSchedule? then multiset{b.members[m.p].op} else multiset{}
  }

  function ReleasedBy(b: Barrier, m: Move): multiset<nat> {
    if m.Step? && Enabled(b, m) && b.members[m.p].pc.ReleaseZero? then multiset{m.p} else multiset{}
  }

  function Advance(h: History, m: Move): History {
    History(Next(h.barrier, m), Track(h.barrier, h.view, m),
            h.scheduled + ScheduledBy(h.barrier, m), h.releases + ReleasedBy(h.barrier, m))
  }

  function Execute(b: Barrier, moves: seq<Move>): History {
    if moves == [] then History(b, View(0, 0), multiset{}, multiset{})
    else Advance(Execute(b, moves[..|moves| - 1]), moves[|moves| - 1])
  }

  lemma SameParticipants(b: Barrier, m: Move)
    ensures |Next(b, m).members| == |b.members|
  {
  }

  lemma {:induction false} Reachable(b: Barrier, moves: seq<Move>)
    requires Initial(b)
    ensures Inv(Execute(b, moves).barrier, Execute(b, moves).view)
    ensures |Execute(b, moves).barrier.members| == |b.members|
  {
    if moves == [] {
      InitialInv(b);
    } else {
      Reachable(b, moves[..|moves| - 1]);
      var h := Execute(b, moves[..|moves| - 1]);
      Preserved(h.barrier, h.view, moves[|moves| - 1]);
      SameParticipants(h.barrier, moves[|moves| - 1]);
    }
  }

  // ---------------------------------------------------------------------
  // Rounds
  // ---------------------------------------------------------------------

  /** Counted in round `r`, or the one that completed it. */
  predicate HasArrived(m: Member, r: nat) {
    m.round > r || (m.round == r && (m.pc.Waiting? || m.pc.Released? || Releasing(m)))
  }

  /** Nobody has left a round in which somebody has not arrived; nobody is two rounds ahead; no assertion has failed. */
  ghost predicate InStep(b: Barrier) {
    && (forall p, q, r: nat :: 0 <= p < |b.members| && 0 <= q < |b.members| && b.members[p].round > r ==>
         HasArrived(b.members[q], r))
    && (forall p, q :: 0 <= p < |b.members| && 0 <= q < |b.members| ==> b.members[p].round <= b.members[q].round + 1)
    && (forall p :: 0 <= p < |b.members| ==> !b.members[p].pc.Failed?)
  }

  lemma KeepsStep(b: Barrier, v: View)
    requires AllFit(b, v)
    ensures InStep(b)
  {
    forall p | 0 <= p < |b.members|
      ensures b.members[p].round <= v.epoch <= b.members[p].round + 1 && !b.members[p].pc.Failed?
      ensures b.members[p].round < v.epoch ==> HasArrived(b.members[p], b.members[p].round)
    {
      assert MemberFits(b, v, p);
    }
  }

  /** Phase safety: nobody leaves round r before all have arrived in round r. */
  lemma {:induction false} PhaseSafety(b: Barrier, moves: seq<Move>)
    requires Initial(b)
    ensures InStep(Execute(b, moves).barrier)
  {
    Reachable(b, moves);
    KeepsStep(Execute(b, moves).barrier, Execute(b, moves).view);
  }

  // ---------------------------------------------------------------------
  // The release
  // ---------------------------------------------------------------------

  /** The participant about to be resumed exists, waits, and waits in the round of its releaser. */
  ghost predicate ResumesItsRound(b: Barrier, p: nat) {
    p < |b.members| && b.members[p].pc.ReleaseSchedule? ==>
      b.members[p].op < |b.members| && b.members[b.members[p].op].pc.Waiting?
          && b.members[b.members[p].op].round == b.members[p].round
  }

  /** A release that has made all its dequeues has left nobody of its round waiting. */
  ghost predicate LeavesNobody(b: Barrier, p: nat) {
    p < |b.members| && b.members[p].pc.ReleaseTake? && b.members[p].todo == 0 ==>
      forall q :: 0 <= q < |b.members| && b.members[q].pc.Waiting? ==> b.members[q].round == b.members[p].round + 1
  }

  lemma NobodyLeft(b: Barrier, v: View, p: nat)
    requires Inv(b, v)
    ensures LeavesNobody(b, p)
  {
    if p < |b.members| && b.members[p].pc.ReleaseTake? && b.members[p].todo == 0 {
      assert MemberFits(b, v, p);
      forall q | 0 <= q < |b.members| && b.members[q].pc.Waiting?
        ensures b.members[q].round == v.epoch
      {
        assert MemberFits(b, v, q);
        assert !InHand(b, q);
        assert !Due(b.members[q], v.epoch);
      }
    }
  }

  /** A release takes exactly the waiters of its round, whatever arrivals of the next round are being appended. */
  lemma {:induction false} ReleaseExact(b: Barrier, moves: seq<Move>, p: nat)
    requires Initial(b)
    ensures ResumesItsRound(Execute(b, moves).barrier, p)
    ensures LeavesNobody(Execute(b, moves).barrier, p)
  {
    Reachable(b, moves);
    var h := Execute(b, moves);
    NobodyLeft(h.barrier, h.view, p);
    if p < |h.barrier.members| {
      assert MemberFits(h.barrier, h.view, p);
    }
  }

  // ---------------------------------------------------------------------
  // Once per round
  // ---------------------------------------------------------------------

  /** Rounds whose end has been decided for a participant: those it has left, and the one it is leaving. */
  function Ended(m: Member): nat {
    m.round + if m.pc.Released? || Releasing(m) then 1 else 0
  }

  ghost predicate Settled(h: History, p: nat) {
    p < |h.barrier.members| ==> h.scheduled[p] + h.releases[p] == Ended(h.barrier.members[p])
  }

  /** What a move does to the participant that makes it. */
  lemma OwnEnd(b: Barrier, v: View, m: Move)
    requires Enabled(b, m) && MemberFits(b, v, m.p) && |Next(b, m).members| == |b.members|
    requires b.members[m.p].pc.ReleaseTake? && b.members[m.p].todo != 0 ==> b.list != []
    ensures Ended(Next(b, m).members[m.p]) == Ended(b.members[m.p]) + ReleasedBy(b, m)[m.p]
    ensures ScheduledBy(b, m)[m.p] == 0
  {
  }

  /** What a move does to another participant. */
  lemma OthersEnd(b: Barrier, v: View, m: Move, p: nat)
    requires Enabled(b, m) && MemberFits(b, v, m.p) && p < |b.members| == |Next(b, m).members| && p != m.p
    ensures Ended(Next(b, m).members[p]) == Ended(b.members[p]) + ScheduledBy(b, m)[p]
    ensures ReleasedBy(b, m)[p] == 0
  {
    if b.members[m.p].pc.ReleaseSchedule? {
    } else {
      assert Next(b, m).members[p] == b.members[p];
    }
  }

  lemma SettledStep(h: History, m: Move, p: nat)
    requires Inv(h.barrier, h.view) && Settled(h, p)
    ensures Settled(Advance(h, m), p)
  {
    SameParticipants(h.barrier, m);
    if Enabled(h.barrier, m) {
      assert MemberFits(h.barrier, h.view, m.p);
      if p == m.p {
        if h.barrier.members[p].pc.ReleaseTake? && h.barrier.members[p].todo != 0 {
          FrontDue(h.barrier, h.view, p);
        }
        OwnEnd(h.barrier, h.view, m);
      } else if p < |h.barrier.members| {
        OthersEnd(h.barrier, h.view, m, p);
      }
    }
  }

  /**
   Each round of a participant is ended once: by one schedule from that round's
   releaser or by releasing it itself.
   */
  lemma {:induction false} ResumedOncePerRound(b: Barrier, moves: seq<Move>, p: nat)
    requires Initial(b) && p < |b.members|
    ensures var h := Execute(b, moves);
            |h.barrier.members| == |b.members| && h.scheduled[p] + h.releases[p] == Ended(h.barrier.members[p])
  {
    Reachable(b, moves);
    if moves != [] {
      Reachable(b, moves[..|moves| - 1]);
      ResumedOncePerRound(b, moves[..|moves| - 1], p);
      SettledStep(Execute(b, moves[..|moves| - 1]), moves[|moves| - 1], p);
    }
  }

  // ---------------------------------------------------------------------
  // Not everybody waits
  // ---------------------------------------------------------------------

  lemma SomebodyNotWaiting(b: Barrier, v: View)
    requires Inv(b, v)
    ensures exists p :: 0 <= p < |b.members| && !b.members[p].pc.Waiting?
  {
    if forall p :: 0 <= p < |b.members| ==> b.members[p].pc.Waiting? {
      assert !SomeReleaser(b);
      forall p | 0 <= p < |b.members|
        ensures CountedAt(v.epoch)(b.members[p]) == 1
      {
        assert MemberFits(b, v, p);
        assert !InHand(b, p);
        assert !Due(b.members[p], v.epoch);
      }
      TotalBound(b.members, CountedAt(v.epoch), 1, 1);
    }
  }

  /** The participants never all wait: one of them is outside or has an access to make. */
  lemma {:induction false} NeverAllWaiting(b: Barrier, moves: seq<Move>)
    requires Initial(b)
    ensures var now := Execute(b, moves).barrier;
            exists p :: 0 <= p < |now.members| && !now.members[p].pc.Waiting?
  {
    Reachable(b, moves);
    SomebodyNotWaiting(Execute(b, moves).barrier, Execute(b, moves).view);
  }
}
