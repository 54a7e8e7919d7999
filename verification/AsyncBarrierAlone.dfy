/** What an arrival at the barrier does when its participant moves alone, whatever the others are in the middle of. */
module AsyncBarrierAlone {
  import opened Tally
  import opened Undisturbed
  import opened AsyncBarrier
  import opened AsyncBarrierProof

  /** The barrier, and the participants scheduled since the participant moves alone, in order. */
  datatype Lone = Lone(barrier: Barrier, scheduled: seq<nat>)

  function Forward(x: Lone, p: nat): Lone {
    Lone(Next(x.barrier, Step(p, false)),
         x.scheduled + if p < |x.barrier.members| && x.barrier.members[p].pc.ReleaseSchedule?
                       then [x.barrier.members[p].op] else [])
  }

  function Mover(p: nat): Lone -> Lone {
    (x: Lone) => Forward(x, p)
  }

  /** After `n` accesses of participant `p`, with nobody else moving. */
  function Alone(x: Lone, p: nat, n: nat): Lone {
    After(Mover(p), x, n)
  }

  lemma AloneMore(x: Lone, p: nat, a: nat, b: nat)
    ensures Alone(x, p, a + b) == Alone(Alone(x, p, a), p, b)
  {
    AfterMore(Mover(p), x, a, b);
  }

  lemma Extend(x: Lone, p: nat, n: nat, y: Lone, z: Lone)
    requires Alone(x, p, n) == y && Forward(y, p) == z
    ensures Alone(x, p, n + 1) == z
  {
    AloneMore(x, p, n, 1);
    AfterFew(Mover(p), y);
  }

  lemma Chain(x: Lone, p: nat, a: nat, y: Lone, b: nat, z: Lone)
    requires Alone(x, p, a) == y && Alone(y, p, b) == z
    ensures Alone(x, p, a + b) == z
  {
    AloneMore(x, p, a, b);
  }

  function Put(x: Lone, p: nat, m: Member): Lone
    requires p < |x.barrier.members|
  {
    x.(barrier := With(x.barrier, p, m))
  }

  // ---------------------------------------------------------------------
  // The loop of a release
  // ---------------------------------------------------------------------

  /** The participants of `q` are released, and `p` is at `m`. */
  function Freed(members: seq<Member>, q: seq<nat>, p: nat, m: Member): seq<Member> {
    seq(|members|, i requires 0 <= i < |members| =>
      if i == p then m else if i in q then members[i].(pc := Released) else members[i])
  }

  function Others(q: seq<nat>, p: nat): seq<nat> {
    if q == [] then [] else (if q[0] == p then [] else [q[0]]) + Others(q[1..], p)
  }

  /** Participant `p` has as many dequeues to make as there are participants in the list. */
  predicate Ready(x: Lone, p: nat) {
    && p < |x.barrier.members| && x.barrier.members[p].pc.ReleaseTake?
    && x.barrier.members[p].todo == |x.barrier.list|
    && (forall i :: 0 <= i < |x.barrier.list| ==> x.barrier.list[i] < |x.barrier.members|)
    && (!x.barrier.members[p].enlisted ==> p !in x.barrier.list)
  }

  /** What one turn of the loop leaves; a releaser passes over itself. */
  function Turned(x: Lone, p: nat): Lone
    requires Ready(x, p) && x.barrier.list != []
  {
    var b, m, first := x.barrier, x.barrier.members[p], x.barrier.list[0];
    var less := m.(todo := m.todo - 1);
    if first == p then Put(x.(barrier := b.(list := b.list[1..])), p, less)
    else
      Lone(With(With(b.(list := b.list[1..]), p, less.(op := first)), first, b.members[first].(pc := Released)),
           x.scheduled + [first])
  }

  lemma TurnAlone(x: Lone, p: nat)
    requires Ready(x, p) && x.barrier.list != []
    ensures Alone(x, p, if x.barrier.list[0] == p then 1 else 2) == Turned(x, p)
  {
    var b, m, first := x.barrier, x.barrier.members[p], x.barrier.list[0];
    if first == p {
      Extend(x, p, 0, x, Turned(x, p));
    } else {
      var x1 := Put(x.(barrier := b.(list := b.list[1..])), p, m.(pc := ReleaseSchedule, op := first));
      Extend(x, p, 0, x, x1);
      assert b.members[p := m.(pc := ReleaseSchedule, op := first)][p := m.(todo := m.todo - 1, op := first)]
          == b.members[p := m.(todo := m.todo - 1, op := first)];
      Extend(x, p, 1, x1, Turned(x, p));
    }
  }

  lemma StillReady(x: Lone, p: nat)
    requires Ready(x, p) && x.barrier.list != []
    ensures Ready(Turned(x, p), p) && Turned(x, p).barrier.list == x.barrier.list[1..]
    ensures Turned(x, p).barrier.members[p].round == x.barrier.members[p].round
  {
    assert forall i :: 0 <= i < |x.barrier.list[1..]| ==> x.barrier.list[1..][i] == x.barrier.list[i + 1];
  }

  lemma FreedOne(members: seq<Member>, q: seq<nat>, p: nat, k: Member, m: Member)
    requires p < |members| && q != [] && q[0] < |members| && q[0] != p
    ensures var freed := members[p := m][q[0] := members[q[0]].(pc := Released)];
            Freed(freed, q[1..], p, k) == Freed(members, q, p, k)
  {
    assert q == [q[0]] + q[1..];
  }

  lemma FreedNone(members: seq<Member>, q: seq<nat>, p: nat, k: Member, m: Member)
    requires p < |members| && q != [] && q[0] == p
    ensures Freed(members[p := m], q[1..], p, k) == Freed(members, q, p, k)
  {
    assert q == [q[0]] + q[1..];
  }

  /** The state when the release is over. */
  function Over(x: Lone, p: nat, k: Member): Lone {
    Lone(x.barrier.(list := [], members := Freed(x.barrier.members, x.barrier.list, p, k)),
         x.scheduled + Others(x.barrier.list, p))
  }

  lemma Regroup(a: seq<nat>, b: seq<nat>, c: seq<nat>)
    ensures (a + b) + c == a + (b + c) && a + [] == a
  {
  }

  lemma OthersFirst(s: seq<nat>, q: seq<nat>, p: nat)
    requires q != []
    ensures (if q[0] == p then s else s + [q[0]]) + Others(q[1..], p) == s + Others(q, p)
  {
    Regroup(s, if q[0] == p then [] else [q[0]], Others(q[1..], p));
  }

  lemma OverAgain(x: Lone, p: nat, k: Member)
    requires Ready(x, p) && x.barrier.list != []
    ensures Over(Turned(x, p), p, k) == Over(x, p, k)
  {
    var b, m, q := x.barrier, x.barrier.members[p], x.barrier.list;
    var y := Turned(x, p);
    OthersFirst(x.scheduled, q, p);
    assert Freed(y.barrier.members, q[1..], p, k) == Freed(b.members, q, p, k) by {
      if q[0] == p {
        FreedNone(b.members, q, p, k, m.(todo := m.todo - 1));
      } else {
        FreedOne(b.members, q, p, k, m.(todo := m.todo - 1, op := q[0]));
      }
    }
    assert y.barrier == b.(list := q[1..], members := y.barrier.members);
  }

  /** A loop with such turns releases everybody in the list. */
  lemma {:induction false} LoopReleases(advance: Lone -> Lone, x: Lone, p: nat) returns (n: nat, k: Member)
    requires Ready(x, p)
    requires forall y: Lone {:trigger Ready(y, p)} :: Ready(y, p) ==>
               if y.barrier.list == [] then After(advance, y, 1) == Put(y, p, Pass(y.barrier.members[p]))
               else After(advance, y, if y.barrier.list[0] == p then 1 else 2) == Turned(y, p)
    ensures After(advance, x, n) == Over(x, p, k)
    ensures k.pc.Outside? && k.round == x.barrier.members[p].round + 1
    decreases |x.barrier.list|
  {
    if x.barrier.list == [] {
      n, k := 1, Pass(x.barrier.members[p]);
      assert Freed(x.barrier.members, [], p, k) == x.barrier.members[p := k];
    } else {
      var y := Turned(x, p);
      StillReady(x, p);
      n, k := LoopReleases(advance, y, p);
      OverAgain(x, p, k);
      AfterMore(advance, x, if x.barrier.list[0] == p then 1 else 2, n);
      n := n + if x.barrier.list[0] == p then 1 else 2;
    }
  }

  lemma Releases(x: Lone, p: nat) returns (n: nat, k: Member)
    requires Ready(x, p)
    ensures Alone(x, p, n) == Over(x, p, k)
    ensures k.pc.Outside? && k.round == x.barrier.members[p].round + 1
  {
    forall y: Lone {:trigger Ready(y, p)} | Ready(y, p)
      ensures if y.barrier.list == [] then After(Mover(p), y, 1) == Put(y, p, Pass(y.barrier.members[p]))
              else After(Mover(p), y, if y.barrier.list[0] == p then 1 else 2) == Turned(y, p)
    {
      if y.barrier.list == [] {
        Extend(y, p, 0, y, Put(y, p, Pass(y.barrier.members[p])));
      } else {
        TurnAlone(y, p);
      }
    }
    n, k := LoopReleases(Mover(p), x, p);
  }

  // ---------------------------------------------------------------------
  // Arrivals
  // ---------------------------------------------------------------------

  /** Not the last: it stands in the list, counted, and waits. */
  lemma ArrivesEarly(x: Lone, p: nat)
    requires p < |x.barrier.members| && x.barrier.members[p].pc.ArriveLoad?
    requires 0 <= x.barrier.count < Capacity(x.barrier) - 1
    ensures var b, m := x.barrier, x.barrier.members[p];
            Alone(x, p, 4) == Put(x.(barrier := b.(count := b.count + 1, list := b.list + [p])), p,
                                  m.(pc := Waiting, seen := b.count))
  {
    var b, m := x.barrier, x.barrier.members[p].(seen := x.barrier.count);
    var y := x.(barrier := b.(list := b.list + [p]));
    var x1, x2 := Put(x, p, m.(pc := ArriveEnqueue)), Put(y, p, m.(pc := ArriveTest));
    var x3 := Put(y, p, m.(pc := ArriveCas));
    Extend(x, p, 0, x, x1);
    Extend(x, p, 1, x1, x2);
    Extend(x, p, 2, x2, x3);
    Extend(x, p, 3, x3, Put(x.(barrier := b.(count := b.count + 1, list := b.list + [p])), p, m.(pc := Waiting)));
  }

  /** The last, without the look: it comes to release the round with itself in the list. */
  lemma ArrivesLast(x: Lone, p: nat)
    requires p < |x.barrier.members| && x.barrier.members[p].pc.ArriveLoad?
    requires x.barrier.count == Capacity(x.barrier) - 1
    ensures var b, m := x.barrier, x.barrier.members[p];
            Alone(x, p, 4) == Put(x.(barrier := b.(list := b.list + [p])), p,
                                  m.(pc := ReleaseZero, seen := b.count, enlisted := true))
  {
    var b, m := x.barrier, x.barrier.members[p].(seen := x.barrier.count);
    var y := x.(barrier := b.(list := b.list + [p]));
    var x1, x2 := Put(x, p, m.(pc := ArriveEnqueue)), Put(y, p, m.(pc := ArriveTest));
    var x3 := Put(y, p, m.(pc := ArriveRecheck));
    Extend(x, p, 0, x, x1);
    Extend(x, p, 1, x1, x2);
    Extend(x, p, 2, x2, x3);
    Extend(x, p, 3, x3, Put(y, p, m.(pc := ReleaseZero, enlisted := true)));
  }

  /** Everybody but `p` is in `q`. */
  ghost predicate HasOthers(q: seq<nat>, n: nat, p: nat) {
    forall i :: 0 <= i < n && i != p ==> i in q
  }

  /** The list holds what the release is about to take from it. */
  ghost predicate Assembled(b: Barrier, p: nat) {
    && p < |b.members| && b.members[p].pc.ReleaseZero?
    && |b.list| == (if b.members[p].enlisted then Capacity(b) else Capacity(b) - 1)
    && (forall i :: 0 <= i < |b.list| ==> b.list[i] < |b.members|)
    && (!b.members[p].enlisted ==> p !in b.list)
    && HasOthers(b.list, |b.members|, p)
  }

  lemma ListReady(b: Barrier, v: View, p: nat)
    requires Inv(b, v) && p < |b.members| && b.members[p].pc.ReleaseZero?
    ensures Assembled(b, p)
  {
    ListLength(b, v, p);
    assert MemberFits(b, v, p);
    assert b.list[0..] == b.list;
  }

  lemma FreedZero(members: seq<Member>, q: seq<nat>, p: nat, k: Member, m: Member)
    requires p < |members|
    ensures Freed(members[p := m], q, p, k) == Freed(members, q, p, k)
  {
  }

  /** From the zeroing store on: everybody in the list goes. */
  lemma ReleasesList(x: Lone, p: nat) returns (n: nat, k: Member)
    requires Assembled(x.barrier, p)
    ensures Alone(x, p, n) == Over(x.(barrier := x.barrier.(count := 0)), p, k)
    ensures k.pc.Outside? && k.round == x.barrier.members[p].round + 1
  {
    var b, m := x.barrier, x.barrier.members[p];
    var zero := x.(barrier := b.(count := 0));
    var x1 := Put(zero, p, m.(pc := ReleaseTake, todo := |b.list|));
    Extend(x, p, 0, x, x1);
    n, k := Releases(x1, p);
    FreedZero(b.members, b.list, p, k, m.(pc := ReleaseTake, todo := |b.list|));
    Chain(x, p, 1, x1, n, Over(zero, p, k));
    n := n + 1;
  }

  // ---------------------------------------------------------------------
  // A whole await
  // ---------------------------------------------------------------------

  /** The participants all leave the round, `p` by returning and the others by being released. */
  function AllFreed(b: Barrier, p: nat, k: Member): Barrier {
    b.(count := 0, list := [], members := seq(|b.members|, i requires 0 <= i < |b.members| =>
         if i == p then k else b.members[i].(pc := Released)))
  }

  lemma EverybodyFreed(b: Barrier, q: seq<nat>, p: nat, k: Member, m: Member)
    requires p < |b.members| && HasOthers(q, |b.members|, p)
    ensures AllFreed(b, p, k).members == Freed(b.members[p := m], q, p, k)
  {
  }

  /** The participant in the list, counted, and waiting. */
  function Enlisted(x: Lone, p: nat): Lone
    requires p < |x.barrier.members|
  {
    var b := x.barrier;
    Put(x.(barrier := b.(count := b.count + 1, list := b.list + [p])), p, b.members[p].(pc := Waiting, seen := b.count))
  }

  lemma EarlyFromLoad(x: Lone, p: nat)
    requires p < |x.barrier.members| && 0 <= x.barrier.count < Capacity(x.barrier) - 1
    ensures Alone(Put(x, p, x.barrier.members[p].(pc := ArriveLoad)), p, 4) == Enlisted(x, p)
  {
    var b, m := x.barrier, x.barrier.members[p];
    ArrivesEarly(Put(x, p, m.(pc := ArriveLoad)), p);
    assert b.members[p := m.(pc := ArriveLoad)][p := m.(pc := Waiting, seen := b.count)]
        == b.members[p := m.(pc := Waiting, seen := b.count)];
  }

  /**
   An arrival that is not the last, alone: the participant stands at the end of
   the list, is counted, and waits.
   */
  lemma EarlyAlone(x: Lone, v: View, p: nat, look: bool)
    requires Inv(x.barrier, v) && Enabled(x.barrier, Await(p, look)) && x.barrier.count < Capacity(x.barrier) - 1
    ensures Alone(x.(barrier := Next(x.barrier, Await(p, look))), p, if look then 5 else 4) == Enlisted(x, p)
  {
    EarlyFromLoad(x, p);
    if look {
      var x0 := x.(barrier := Next(x.barrier, Await(p, look)));
      LooksFirst(x, p);
      Chain(x0, p, 1, Put(x, p, x.barrier.members[p].(pc := ArriveLoad)), 4, Enlisted(x, p));
    }
  }

  lemma LooksFirst(x: Lone, p: nat)
    requires Enabled(x.barrier, Await(p, true)) && x.barrier.count != Capacity(x.barrier) - 1
    ensures Alone(x.(barrier := Next(x.barrier, Await(p, true))), p, 1)
         == Put(x, p, x.barrier.members[p].(pc := ArriveLoad))
  {
    var x0 := x.(barrier := Next(x.barrier, Await(p, true)));
    assert x0.barrier.members[p := x.barrier.members[p].(pc := ArriveLoad)]
        == x.barrier.members[p := x.barrier.members[p].(pc := ArriveLoad)];
    Extend(x0, p, 0, x0, Put(x, p, x.barrier.members[p].(pc := ArriveLoad)));
  }

  /** The last arrival comes to its zeroing store. */
  lemma ComesToRelease(x: Lone, p: nat, look: bool) returns (n: nat, m: Member)
    requires Enabled(x.barrier, Await(p, look)) && x.barrier.count == Capacity(x.barrier) - 1
    ensures var b := x.barrier;
            Alone(x.(barrier := Next(b, Await(p, look))), p, n) ==
              Put(x.(barrier := b.(list := if look then b.list else b.list + [p])), p, m)
    ensures m.pc.ReleaseZero? && m.enlisted == !look && m.round == x.barrier.members[p].round
  {
    var b := x.barrier;
    var x0 := x.(barrier := Next(b, Await(p, look)));
    if look {
      n, m := 1, b.members[p].(pc := ReleaseZero, enlisted := false);
      Extend(x0, p, 0, x0, Put(x, p, m));
    } else {
      n, m := 4, b.members[p].(pc := ReleaseZero, seen := b.count, enlisted := true);
      ArrivesLast(x0, p);
    }
  }

  lemma {:induction false} InvAlone(x: Lone, v: View, p: nat, n: nat) returns (v': View)
    requires Inv(x.barrier, v)
    ensures Inv(Alone(x, p, n).barrier, v')
    decreases n
  {
    v' := v;
    if n > 0 {
      Preserved(x.barrier, v, Step(p, false));
      v' := InvAlone(Forward(x, p), Track(x.barrier, v, Step(p, false)), p, n - 1);
    }
  }

  /** When it comes there, the list holds everybody else. */
  lemma EverybodyListed(x: Lone, v: View, p: nat, look: bool, n: nat, x1: Lone)
    requires Inv(x.barrier, v) && Enabled(x.barrier, Await(p, look))
    requires Alone(x.(barrier := Next(x.barrier, Await(p, look))), p, n) == x1
    requires p < |x1.barrier.members| && x1.barrier.members[p].pc.ReleaseZero?
    ensures Assembled(x1.barrier, p)
  {
    Preserved(x.barrier, v, Await(p, look));
    var v1 := InvAlone(x.(barrier := Next(x.barrier, Await(p, look))), Track(x.barrier, v, Await(p, look)), p, n);
    ListReady(x1.barrier, v1, p);
  }

  /** What the release leaves, told of the barrier before the last arrival. */
  lemma OverAsStated(x: Lone, p: nat, q: seq<nat>, m: Member, k: Member)
    requires p < |x.barrier.members| && (q == x.barrier.list || q == x.barrier.list + [p])
    requires HasOthers(q, |x.barrier.members|, p)
    ensures Over(Put(x.(barrier := x.barrier.(list := q, count := 0)), p, m), p, k)
         == Lone(AllFreed(x.barrier, p, k), x.scheduled + Others(x.barrier.list, p))
  {
    EverybodyFreed(x.barrier, q, p, k, m);
    OthersEnd(x.barrier.list, p);
  }

  lemma SameZero(x: Lone, p: nat, q: seq<nat>, m: Member)
    requires p < |x.barrier.members|
    ensures var y := Put(x.(barrier := x.barrier.(list := q)), p, m);
            y.(barrier := y.barrier.(count := 0)) == Put(x.(barrier := x.barrier.(list := q, count := 0)), p, m)
  {
  }

  lemma WithoutItself(list: seq<nat>, n: nat, p: nat)
    requires HasOthers(list + [p], n, p)
    ensures HasOthers(list, n, p)
  {
    forall i | 0 <= i < n && i != p
      ensures i in list
    {
      assert i in list + [p];
    }
  }

  /** The rest of the last arrival. */
  lemma LastReleases(x: Lone, p: nat, q: seq<nat>, m: Member) returns (n: nat, k: Member)
    requires p < |x.barrier.members| && (q == x.barrier.list || q == x.barrier.list + [p])
    requires Assembled(Put(x.(barrier := x.barrier.(list := q)), p, m).barrier, p)
    requires HasOthers(q, |x.barrier.members|, p)
    ensures Alone(Put(x.(barrier := x.barrier.(list := q)), p, m), p, n) ==
              Lone(AllFreed(x.barrier, p, k), x.scheduled + Others(x.barrier.list, p))
    ensures k.pc.Outside? && k.round == m.round + 1
  {
    n, k := ReleasesList(Put(x.(barrier := x.barrier.(list := q)), p, m), p);
    SameZero(x, p, q, m);
    OverAsStated(x, p, q, m, k);
  }

  /**
   The last arrival, alone: it schedules every other participant, in the order
   of the list, and returns; the count is zero and the list is empty.
   */
  lemma LastAlone(x: Lone, v: View, p: nat, look: bool) returns (n: nat, k: Member)
    requires Inv(x.barrier, v) && Enabled(x.barrier, Await(p, look)) && x.barrier.count == Capacity(x.barrier) - 1
    ensures Alone(x.(barrier := Next(x.barrier, Await(p, look))), p, n) ==
              Lone(AllFreed(x.barrier, p, k), x.scheduled + Others(x.barrier.list, p))
    ensures k.pc.Outside? && k.round == x.barrier.members[p].round + 1
    ensures HasOthers(x.barrier.list, |x.barrier.members|, p)
  {
    var m;
    n, m := ComesToRelease(x, p, look);
    var q := if look then x.barrier.list else x.barrier.list + [p];
    EverybodyListed(x, v, p, look, n, Put(x.(barrier := x.barrier.(list := q)), p, m));
    var more;
    more, k := LastReleases(x, p, q, m);
    if !look {
      WithoutItself(x.barrier.list, |x.barrier.members|, p);
    }
    AloneMore(x.(barrier := Next(x.barrier, Await(p, look))), p, n, more);
    n := n + more;
  }

  lemma {:induction false} OthersEnd(q: seq<nat>, p: nat)
    ensures Others(q + [p], p) == Others(q, p)
  {
    if q != [] {
      assert (q + [p])[1..] == q[1..] + [p];
      OthersEnd(q[1..], p);
    }
  }

  /** A participant that has been released returns by its next access. */
  lemma ReturnAlone(x: Lone, p: nat)
    requires p < |x.barrier.members| && x.barrier.members[p].pc.Released?
    ensures Alone(x, p, 1) == Put(x, p, Pass(x.barrier.members[p]))
  {
    Extend(x, p, 0, x, Put(x, p, Pass(x.barrier.members[p])));
  }

  // ---------------------------------------------------------------------
  // From wherever the participant is
  // ---------------------------------------------------------------------

  /** Bounds the accesses that a participant has left. */
  function Left(b: Barrier, m: Member): int {
    var w, exact := 2 * Capacity(b), m.seen == b.count;
    match m.pc
    case TryLoad => w + 9
    case ArriveLoad => w + 8
    case ArriveEnqueue => w + 7
    case ArriveTest => if exact then w + 4 else w + 6
    case ArriveCas => if exact then 1 else w + 5
    case ArriveRecheck => w + 3
    case ReleaseZero => w + 2
    case ReleaseTake => 2 * m.todo + 1
    case ReleaseSchedule => 2 * m.todo
    case Released => 1
    case _ => 0
  }

  predicate Closer(b: Barrier, b': Barrier, p: nat)
    requires p < |b.members|
  {
    |b'.members| == |b.members| && 0 <= Left(b', b'.members[p]) < Left(b, b.members[p])
  }

  lemma ReleaseNearer(b: Barrier, p: nat)
    requires p < |b.members| && Releasing(b.members[p]) && b.members[p].todo >= 0
    requires b.members[p].pc.ReleaseTake? && b.members[p].todo != 0 ==> b.list != []
    requires b.members[p].pc.ReleaseSchedule? ==> b.members[p].todo > 0 && b.members[p].op != p
                                                  && b.members[p].op < |b.members|
    ensures Closer(b, Access(b, p, false), p)
  {
  }

  lemma ArriveNearer(b: Barrier, p: nat)
    requires p < |b.members| && Enabled(b, Step(p, false)) && !Releasing(b.members[p])
    requires b.members[p].pc.ArriveRecheck? ==> b.count == Capacity(b) - 1
    ensures Closer(b, Access(b, p, false), p)
  {
  }

  lemma Nearer(b: Barrier, v: View, p: nat)
    requires Inv(b, v) && Enabled(b, Step(p, false))
    ensures Closer(b, Access(b, p, false), p)
  {
    assert MemberFits(b, v, p);
    if Releasing(b.members[p]) {
      if b.members[p].pc.ReleaseTake? && b.members[p].todo != 0 {
        FrontDue(b, v, p);
      }
      ReleaseNearer(b, p);
    } else {
      ArriveNearer(b, p);
    }
  }

  /** Wherever a participant is in an await, it comes to wait, or returns, if it moves alone. */
  lemma {:induction false} EndsAlone(x: Lone, v: View, p: nat) returns (n: nat)
    requires Inv(x.barrier, v) && p < |x.barrier.members|
    ensures var b := Alone(x, p, n).barrier;
            p < |b.members| && (b.members[p].pc.Outside? || b.members[p].pc.Waiting?)
    decreases Left(x.barrier, x.barrier.members[p])
  {
    assert MemberFits(x.barrier, v, p);
    if x.barrier.members[p].pc.Outside? || x.barrier.members[p].pc.Waiting? {
      n := 0;
    } else {
      Nearer(x.barrier, v, p);
      Preserved(x.barrier, v, Step(p, false));
      n := EndsAlone(Forward(x, p), Track(x.barrier, v, Step(p, false)), p);
      n := n + 1;
    }
  }
}
