/**
 The asynchronous barrier as a machine of interleaved atomic accesses, used
 over any number of rounds by exactly as many participants as its capacity,
 and neither cancelled nor reset.
 */
module AsyncBarrier {
  import opened Tally

  /** The next atomic access of a participant, or what it waits for. */
  datatype Pc =
    | Outside           // between two awaits
    | TryLoad           // await_ready: arriveAndRelease(nullptr): m_count.load()
    | ArriveLoad        // arriveAndWait: count = m_count.load()
    | ArriveEnqueue     // arriveAndWait: m_waitList.enqueue(awaiter)
    | ArriveTest        // arriveAndWait: if (count == m_capacity - 1)
    | ArriveCas         // arriveAndWait: m_count.compare_exchange_weak(count, count + 1)
    | ArriveRecheck     // arriveAndRelease(awaiter): m_count.load()
    | Waiting           // suspended: arriveAndWait returned true
    | ReleaseZero       // arriveAndRelease: m_count = 0
    | ReleaseTake       // arriveAndRelease: op = m_waitList.dequeue()
    | ReleaseSchedule   // arriveAndRelease: op->schedule()
    | Released          // scheduled, about to return from the await
    | Failed            // assert(success) failed, or a null op was used

  /**
   `round` counts the awaits a participant has returned from; `seen` is the
   count it read, `todo` the dequeues it has left, `op` the participant it took
   from the list, and `enlisted` says that it passed itself to arriveAndRelease.
   */
  datatype Member = Member(pc: Pc, round: nat, seen: int, todo: int, op: nat, enlisted: bool)

  datatype Barrier = Barrier(count: int, list: seq<nat>, members: seq<Member>)

  function Capacity(b: Barrier): int {
    |b.members|
  }

  /** A participant awaits the barrier, with or without the advice to look first, takes its next access, or returns. */
  datatype Move = Await(p: nat, look: bool) | Step(p: nat, weak: bool)

  predicate Enabled(b: Barrier, m: Move) {
    && m.p < |b.members|
    && match m
       case Await(p, _) => b.members[p].pc.Outside?
       case Step(p, _) => !b.members[p].pc.Outside? && !b.members[p].pc.Waiting? && !b.members[p].pc.Failed?
  }

  function With(b: Barrier, p: nat, m: Member): Barrier
    requires p < |b.members|
  {
    b.(members := b.members[p := m])
  }

  /** The participant returns from its await: one more round is behind it. */
  function Pass(m: Member): Member {
    m.(pc := Outside, round := m.round + 1)
  }

  function Access(b: Barrier, p: nat, weak: bool): Barrier
    requires p < |b.members|
  {
    var m := b.members[p];
    match m.pc
    case TryLoad =>
      With(b, p, if b.count != Capacity(b) - 1 then m.(pc := ArriveLoad) else m.(pc := ReleaseZero, enlisted := false))
    case ArriveLoad => With(b, p, m.(pc := ArriveEnqueue, seen := b.count))
    case ArriveEnqueue => With(b.(list := b.list + [p]), p, m.(pc := ArriveTest))
    case ArriveTest => With(b, p, m.(pc := if m.seen == Capacity(b) - 1 then ArriveRecheck else ArriveCas))
    case ArriveCas =>
      if b.count == m.seen && !weak then With(b.(count := b.count + 1), p, m.(pc := Waiting))
      else With(b, p, m.(pc := ArriveTest, seen := b.count))
    case ArriveRecheck =>
      With(b, p, if b.count != Capacity(b) - 1 then m.(pc := Failed) else m.(pc := ReleaseZero, enlisted := true))
    case ReleaseZero =>
      With(b.(count := 0), p, m.(pc := ReleaseTake, todo := if m.enlisted then Capacity(b) else Capacity(b) - 1))
    case ReleaseTake =>
      if m.todo == 0 then With(b, p, Pass(m))
      else if b.list == [] then With(b, p, m.(pc := Failed))
      else if m.enlisted && b.list[0] == p then With(b.(list := b.list[1..]), p, m.(todo := m.todo - 1))
      else With(b.(list := b.list[1..]), p, m.(pc := ReleaseSchedule, op := b.list[0]))
    case ReleaseSchedule =>
      if m.op >= |b.members| then With(b, p, m.(pc := Failed))
      else With(With(b, p, m.(pc := ReleaseTake, todo := m.todo - 1)), m.op, b.members[m.op].(pc := Released))
    case Released => With(b, p, Pass(m))
    case _ => b
  }

  /** A move that is not enabled changes nothing. */
  function Next(b: Barrier, m: Move): Barrier {
    if !Enabled(b, m) then b else
    match m
    case Await(p, look) => With(b, p, b.members[p].(pc := if look then TryLoad else ArriveLoad))
    case Step(p, weak) => Access(b, p, weak)
  }

  ghost predicate Initial(b: Barrier) {
    && b.count == 0 && b.list == [] && |b.members| > 0
    && forall p :: 0 <= p < |b.members| ==> b.members[p].pc.Outside? && b.members[p].round == 0
  }

  // ---------------------------------------------------------------------
  // The invariant
  // ---------------------------------------------------------------------

  /**
   The specification state beside the machine: releases begun, and how many at
   the front of the list belong to the last one.
   */
  datatype View = View(epoch: nat, backlog: nat)

  function Track(b: Barrier, v: View, m: Move): View {
    if !Enabled(b, m) || m.Await? then v else
    match b.members[m.p].pc
    case ReleaseZero => View(v.epoch + 1, |b.list|)
    case ReleaseTake => if b.members[m.p].todo != 0 && v.backlog > 0 then v.(backlog := v.backlog - 1) else v
    case _ => v
  }

  /** Past its zeroing store, and still to take or schedule waiters. */
  predicate Releasing(m: Member) {
    m.pc.ReleaseTake? || m.pc.ReleaseSchedule?
  }

  /** Counted in the current round. */
  predicate Counted(m: Member, epoch: nat) {
    m.pc.Waiting? && m.round == epoch
  }

  function CountedAt(epoch: nat): Member -> int {
    (m: Member) => if Counted(m, epoch) then 1 else 0
  }

  /** In the list for the current round. */
  predicate Listed(m: Member, epoch: nat) {
    m.round == epoch
        && (m.pc.ArriveTest? || m.pc.ArriveCas? || m.pc.ArriveRecheck? || m.pc.Waiting?
             || (m.pc.ReleaseZero? && m.enlisted))
  }

  /** Has read the count that makes it the last to arrive. */
  predicate Last(b: Barrier, m: Member) {
    m.pc.ReleaseZero? || m.pc.ArriveRecheck? || ((m.pc.ArriveEnqueue? || m.pc.ArriveTest?) && m.seen == Capacity(b) - 1)
  }

  /** The participant that a releaser has taken from the list is a waiter of the round being released. */
  ghost predicate Holds(b: Barrier, v: View, p: nat)
    requires p < |b.members|
  {
    var op := b.members[p].op;
    op < |b.members| && op != p && op !in b.list && Due(b.members[op], v.epoch)
  }

  /** Where a participant may be, relative to the releases begun. */
  ghost predicate MemberFits(b: Barrier, v: View, p: nat)
    requires p < |b.members|
  {
    var m := b.members[p];
    && !m.pc.Failed?
    && (if Releasing(m) || m.pc.Released? then m.round + 1 == v.epoch
        else if m.pc.Waiting? then m.round == v.epoch || m.round + 1 == v.epoch
        else m.round == v.epoch)
    && (Last(b, m) ==> b.count == Capacity(b) - 1)
    && (m.pc.ArriveEnqueue? || m.pc.ArriveTest? || m.pc.ArriveCas? ==> 0 <= m.seen < Capacity(b))
    && (m.pc.ArriveCas? ==> m.seen < Capacity(b) - 1)
    && (m.pc.ReleaseTake? ==> m.todo == v.backlog)
    && (m.pc.ReleaseSchedule? ==> m.todo == v.backlog + 1 && Holds(b, v, p))
    && (Listed(m, v.epoch) <==> v.backlog <= |b.list| && p in b.list[v.backlog..])
  }

  ghost predicate AllFit(b: Barrier, v: View) {
    forall p {:trigger MemberFits(b, v, p)} :: 0 <= p < |b.members| ==> MemberFits(b, v, p)
  }

  /** A waiter of the round being released. */
  predicate Due(m: Member, epoch: nat) {
    m.pc.Waiting? && m.round + 1 == epoch
  }

  /**
   What may stand at the front of the list: a waiter of the round being released,
   or the releaser that enlisted itself.
   */
  predicate OfLastRound(m: Member, epoch: nat) {
    Due(m, epoch) || (Releasing(m) && m.enlisted)
  }

  ghost predicate ListFits(b: Barrier, v: View) {
    && v.backlog <= |b.list|
    && (forall i {:trigger b.list[i]} :: 0 <= i < |b.list| ==> b.list[i] < |b.members|)
    && (forall i, j :: 0 <= i < j < |b.list| ==> b.list[i] != b.list[j])
    && (forall i {:trigger b.list[i]} :: 0 <= i < v.backlog ==> OfLastRound(b.members[b.list[i]], v.epoch))
  }

  /** Every waiter of the round being released is at the front of the list or in the releaser's hand. */
  ghost predicate AllDueFound(b: Barrier, v: View) {
    forall p {:trigger b.members[p]} :: 0 <= p < |b.members| && Due(b.members[p], v.epoch) ==>
      (v.backlog <= |b.list| && p in b.list[..v.backlog]) || InHand(b, p)
  }

  /** A releaser holds the participant it has just taken from the list. */
  ghost predicate InHand(b: Barrier, p: nat) {
    exists r :: 0 <= r < |b.members| && b.members[r].pc.ReleaseSchedule? && b.members[r].op == p
  }

  ghost predicate OneReleaser(b: Barrier) {
    forall p, q :: 0 <= p < q < |b.members| ==> !(Releasing(b.members[p]) && Releasing(b.members[q]))
  }

  ghost predicate SomeReleaser(b: Barrier) {
    exists p :: 0 <= p < |b.members| && Releasing(b.members[p])
  }

  ghost predicate Inv(b: Barrier, v: View) {
    && |b.members| > 0
    && 0 <= b.count < Capacity(b)
    && b.count == Total(b.members, CountedAt(v.epoch))
    && AllFit(b, v)
    && ListFits(b, v)
    && AllDueFound(b, v)
    && OneReleaser(b)
    && (v.backlog > 0 ==> SomeReleaser(b))
  }
}
