/** Every move of every participant keeps the barrier invariant. */
module AsyncBarrierProof {
  import opened Tally
  import opened AsyncBarrier

  ghost predicate Moved(b: Barrier, b': Barrier, p: nat, m: Member) {
    p < |b.members| && b'.members == b.members[p := m]
  }

  lemma CountFrame(b: Barrier, b': Barrier, v: View, p: nat, m: Member)
    requires Moved(b, b', p, m) && b.count == Total(b.members, CountedAt(v.epoch))
    requires b'.count == b.count + CountedAt(v.epoch)(m) - CountedAt(v.epoch)(b.members[p])
    ensures b'.count == Total(b'.members, CountedAt(v.epoch))
  {
    TotalUpdate(b.members, CountedAt(v.epoch), p, m);
  }

  // ---------------------------------------------------------------------
  // A participant on its way in or out
  // ---------------------------------------------------------------------

  /** An access that leaves the list alone and has nothing to do with a release. */
  ghost predicate Aside(b: Barrier, b': Barrier, v: View, p: nat, m: Member) {
    && Moved(b, b', p, m) && b'.list == b.list
    && !Releasing(b.members[p]) && !Releasing(m) && !Due(b.members[p], v.epoch) && !Due(m, v.epoch)
    && 0 <= b'.count < Capacity(b) && (b'.count == b.count || b.count != Capacity(b) - 1)
  }

  lemma AsideFits(b: Barrier, b': Barrier, v: View, p: nat, m: Member)
    requires AllFit(b, v) && Aside(b, b', v, p, m) && MemberFits(b', v, p)
    ensures AllFit(b', v)
  {
    forall q | 0 <= q < |b'.members| && q != p
      ensures MemberFits(b', v, q)
    {
      assert MemberFits(b, v, q);
    }
  }

  lemma AsideRest(b: Barrier, b': Barrier, v: View, p: nat, m: Member)
    requires Aside(b, b', v, p, m) && ListFits(b, v) && OneReleaser(b)
    requires v.backlog > 0 ==> SomeReleaser(b)
    ensures ListFits(b', v) && OneReleaser(b')
    ensures v.backlog > 0 ==> SomeReleaser(b')
  {
    if v.backlog > 0 {
      var r :| 0 <= r < |b.members| && Releasing(b.members[r]);
      assert Releasing(b'.members[r]);
    }
  }

  /** Whoever is in a releaser's hand stays there while the others move. */
  lemma StillInHand(b: Barrier, b': Barrier, p: nat, m: Member, q: nat)
    requires Moved(b, b', p, m) && !b.members[p].pc.ReleaseSchedule? && InHand(b, q)
    ensures InHand(b', q)
  {
    var r :| 0 <= r < |b.members| && b.members[r].pc.ReleaseSchedule? && b.members[r].op == q;
    assert b'.members[r] == b.members[r];
  }

  lemma AsideDue(b: Barrier, b': Barrier, v: View, p: nat, m: Member)
    requires Aside(b, b', v, p, m) && AllDueFound(b, v)
    ensures AllDueFound(b', v)
  {
    forall q | 0 <= q < |b'.members| && Due(b'.members[q], v.epoch)
      ensures (v.backlog <= |b'.list| && q in b'.list[..v.backlog]) || InHand(b', q)
    {
      assert b'.members[q] == b.members[q];
      if InHand(b, q) {
        StillInHand(b, b', p, m, q);
      }
    }
  }

  lemma AsideKeeps(b: Barrier, b': Barrier, v: View, p: nat, m: Member)
    requires Inv(b, v) && Aside(b, b', v, p, m) && MemberFits(b', v, p)
    requires b'.count == b.count + CountedAt(v.epoch)(m) - CountedAt(v.epoch)(b.members[p])
    ensures Inv(b', v)
  {
    CountFrame(b, b', v, p, m);
    AsideFits(b, b', v, p, m);
    AsideRest(b, b', v, p, m);
    AsideDue(b, b', v, p, m);
  }

  predicate StepsAside(pc: Pc) {
    pc.TryLoad? || pc.ArriveLoad? || pc.ArriveTest? || pc.ArriveCas? || pc.ArriveRecheck? || pc.Released?
  }

  lemma AsideStep(b: Barrier, v: View, p: nat, weak: bool)
    requires p < |b.members| && MemberFits(b, v, p) && StepsAside(b.members[p].pc) && 0 <= b.count < Capacity(b)
    ensures var b' := Access(b, p, weak);
            && Aside(b, b', v, p, b'.members[p]) && MemberFits(b', v, p)
            && b'.count == b.count + CountedAt(v.epoch)(b'.members[p]) - CountedAt(v.epoch)(b.members[p])
  {
  }

  // ---------------------------------------------------------------------
  // Entering the list
  // ---------------------------------------------------------------------

  ghost predicate Enters(b: Barrier, b': Barrier, p: nat, m: Member) {
    && Moved(b, b', p, m) && b.members[p].pc.ArriveEnqueue? && m == b.members[p].(pc := ArriveTest)
    && b'.list == b.list + [p] && b'.count == b.count
  }

  lemma NotListed(b: Barrier, v: View, p: nat)
    requires p < |b.members| && MemberFits(b, v, p) && ListFits(b, v) && b.members[p].pc.ArriveEnqueue?
    ensures p !in b.list
  {
    forall i | 0 <= i < |b.list|
      ensures b.list[i] != p
    {
      if i >= v.backlog {
        assert b.list[i] == b.list[v.backlog..][i - v.backlog];
      } else {
        assert OfLastRound(b.members[b.list[i]], v.epoch);
      }
    }
  }

  lemma EntersFits(b: Barrier, b': Barrier, v: View, p: nat, m: Member)
    requires AllFit(b, v) && ListFits(b, v) && Enters(b, b', p, m)
    ensures AllFit(b', v)
  {
    assert b'.list[v.backlog..] == b.list[v.backlog..] + [p];
    forall q | 0 <= q < |b'.members|
      ensures MemberFits(b', v, q)
    {
      assert MemberFits(b, v, q);
      assert q in b'.list[v.backlog..] <==> q in b.list[v.backlog..] || q == p;
    }
  }

  lemma EntersRest(b: Barrier, b': Barrier, v: View, p: nat, m: Member)
    requires ListFits(b, v) && OneReleaser(b) && Enters(b, b', p, m) && p !in b.list
    requires v.backlog > 0 ==> SomeReleaser(b)
    ensures ListFits(b', v) && OneReleaser(b')
    ensures v.backlog > 0 ==> SomeReleaser(b')
  {
    if v.backlog > 0 {
      var r :| 0 <= r < |b.members| && Releasing(b.members[r]);
      assert Releasing(b'.members[r]);
    }
  }

  lemma EntersDue(b: Barrier, b': Barrier, v: View, p: nat, m: Member)
    requires ListFits(b, v) && Enters(b, b', p, m) && AllDueFound(b, v)
    ensures AllDueFound(b', v)
  {
    assert b'.list[..v.backlog] == b.list[..v.backlog];
    forall q | 0 <= q < |b'.members| && Due(b'.members[q], v.epoch)
      ensures q in b'.list[..v.backlog] || InHand(b', q)
    {
      assert b'.members[q] == b.members[q];
      if InHand(b, q) {
        StillInHand(b, b', p, m, q);
      }
    }
  }

  lemma EntersKeeps(b: Barrier, b': Barrier, v: View, p: nat, m: Member)
    requires Inv(b, v) && Enters(b, b', p, m)
    ensures Inv(b', v)
  {
    assert MemberFits(b, v, p);
    NotListed(b, v, p);
    CountFrame(b, b', v, p, m);
    EntersFits(b, b', v, p, m);
    EntersRest(b, b', v, p, m);
    EntersDue(b, b', v, p, m);
  }

  // ---------------------------------------------------------------------
  // The last to arrive
  // ---------------------------------------------------------------------

  /** When one participant is the last to arrive, every other one waits in this round, in the list. */
  lemma EveryoneElseWaits(b: Barrier, v: View, p: nat)
    requires p < |b.members| && b.count == Total(b.members, CountedAt(v.epoch)) == Capacity(b) - 1
    requires !b.members[p].pc.Waiting?
    ensures forall q :: 0 <= q < |b.members| && q != p ==> Counted(b.members[q], v.epoch)
  {
    TotalFull(b.members, CountedAt(v.epoch), p);
    forall q | 0 <= q < |b.members| && q != p
      ensures Counted(b.members[q], v.epoch)
    {
      assert CountedAt(v.epoch)(b.members[q]) == 1;
    }
  }

  lemma HasFirst(s: seq<nat>)
    requires s != []
    ensures exists k: nat :: k in s && k == s[0]
  {
    assert s[0] in s;
  }

  /** A sequence without repetitions whose elements are the numbers below `n` has `n` of them. */
  lemma {:induction false} CoverLength(s: seq<nat>, n: nat)
    requires forall i, j :: 0 <= i < j < |s| ==> s[i] != s[j]
    requires forall k: nat :: k in s <==> k < n
    ensures |s| == n
  {
    if n == 0 {
      if s != [] {
        HasFirst(s);
      }
    } else {
      assert n - 1 in s;
      var i :| 0 <= i < |s| && s[i] == n - 1;
      var rest := s[..i] + s[i + 1..];
      forall k: nat
        ensures k in rest <==> k < n - 1
      {
        assert k in s <==> k in rest || k == s[i];
        assert s[i] !in rest;
      }
      CoverLength(rest, n - 1);
    }
  }

  /** The list holds exactly the participants that the release is about to take from it. */
  lemma ListLength(b: Barrier, v: View, p: nat)
    requires Inv(b, v) && p < |b.members| && b.members[p].pc.ReleaseZero?
    ensures v.backlog == 0
    ensures |b.list| == if b.members[p].enlisted then Capacity(b) else Capacity(b) - 1
    ensures forall q :: 0 <= q < |b.members| && q != p ==> Counted(b.members[q], v.epoch) && q in b.list
  {
    assert MemberFits(b, v, p);
    EveryoneElseWaits(b, v, p);
    assert b.list[0..] == b.list;
    forall q | 0 <= q < |b.members| && q != p
      ensures q in b.list
    {
      assert MemberFits(b, v, q);
    }
    var all := if b.members[p].enlisted then b.list else b.list + [p];
    Covers(b, p);
    CoverLength(all, |b.members|);
  }

  lemma Covers(b: Barrier, p: nat)
    requires p < |b.members|
    requires forall i {:trigger b.list[i]} :: 0 <= i < |b.list| ==> b.list[i] < |b.members|
    requires forall q :: 0 <= q < |b.members| && q != p ==> q in b.list
    ensures forall k: nat :: k in b.list + [p] <==> k < |b.members|
    ensures p in b.list ==> forall k: nat :: k in b.list <==> k < |b.members|
  {
  }

  lemma ZeroFits(b: Barrier, v: View, p: nat)
    requires Inv(b, v) && p < |b.members| && b.members[p].pc.ReleaseZero?
    ensures AllFit(Access(b, p, false), View(v.epoch + 1, |b.list|))
  {
    ListLength(b, v, p);
    var b', v' := Access(b, p, false), View(v.epoch + 1, |b.list|);
    assert b'.list[v'.backlog..] == [];
    assert MemberFits(b, v, p);
    forall q | 0 <= q < |b'.members|
      ensures MemberFits(b', v', q)
    {
    }
  }

  lemma ZeroList(b: Barrier, v: View, p: nat)
    requires Inv(b, v) && p < |b.members| && b.members[p].pc.ReleaseZero?
    ensures ListFits(Access(b, p, false), View(v.epoch + 1, |b.list|))
    ensures AllDueFound(Access(b, p, false), View(v.epoch + 1, |b.list|))
  {
    ListLength(b, v, p);
    var b', v' := Access(b, p, false), View(v.epoch + 1, |b.list|);
    assert b'.list[..v'.backlog] == b.list;
    assert MemberFits(b, v, p);
    assert b.list[0..] == b.list;
    assert p in b.list ==> b.members[p].enlisted;
    forall i | 0 <= i < v'.backlog
      ensures OfLastRound(b'.members[b'.list[i]], v'.epoch)
    {
      assert b.list[i] in b.list;
      assert b.list[i] == p || Counted(b.members[b.list[i]], v.epoch);
    }
  }

  lemma ZeroCount(b: Barrier, v: View, p: nat)
    requires Inv(b, v) && p < |b.members| && b.members[p].pc.ReleaseZero?
    ensures Total(Access(b, p, false).members, CountedAt(v.epoch + 1)) == 0
  {
    ListLength(b, v, p);
    var b' := Access(b, p, false);
    forall q | 0 <= q < |b'.members|
      ensures CountedAt(v.epoch + 1)(b'.members[q]) == 0
    {
    }
    TotalZero(b'.members, CountedAt(v.epoch + 1));
  }

  lemma ZeroReleaser(b: Barrier, v: View, p: nat)
    requires Inv(b, v) && p < |b.members| && b.members[p].pc.ReleaseZero?
    ensures OneReleaser(Access(b, p, false)) && SomeReleaser(Access(b, p, false))
  {
    ListLength(b, v, p);
    assert Releasing(Access(b, p, false).members[p]);
  }

  lemma ZeroKeeps(b: Barrier, v: View, p: nat)
    requires Inv(b, v) && p < |b.members| && b.members[p].pc.ReleaseZero?
    ensures Inv(Access(b, p, false), View(v.epoch + 1, |b.list|))
  {
    ZeroFits(b, v, p);
    ZeroList(b, v, p);
    ZeroCount(b, v, p);
    ZeroReleaser(b, v, p);
  }

  // ---------------------------------------------------------------------
  // The release
  // ---------------------------------------------------------------------

  lemma ReturnsKeeps(b: Barrier, v: View, p: nat)
    requires Inv(b, v) && p < |b.members| && b.members[p].pc.ReleaseTake? && b.members[p].todo == 0
    ensures Inv(Access(b, p, false), v)
  {
    var b' := Access(b, p, false);
    assert MemberFits(b, v, p);
    CountFrame(b, b', v, p, b'.members[p]);
    forall q | 0 <= q < |b'.members|
      ensures MemberFits(b', v, q)
    {
      assert MemberFits(b, v, q);
    }
    forall q | 0 <= q < |b'.members| && Due(b'.members[q], v.epoch)
      ensures q in b'.list[..v.backlog] || InHand(b', q)
    {
      assert b'.members[q] == b.members[q];
      if InHand(b, q) {
        StillInHand(b, b', p, b'.members[p], q);
      }
    }
  }

  /** One dequeue of the release: the front of the list moves one place. */
  ghost predicate Takes(b: Barrier, b': Barrier, v: View, v': View, p: nat, m: Member) {
    && Moved(b, b', p, m) && b'.count == b.count && b.list != [] && b'.list == b.list[1..]
    && v.backlog > 0 && v' == v.(backlog := v.backlog - 1)
    && b.members[p].pc.ReleaseTake? && Releasing(m) && m.round == b.members[p].round
         && m.enlisted == b.members[p].enlisted
  }

  lemma TakesFits(b: Barrier, b': Barrier, v: View, v': View, p: nat, m: Member)
    requires AllFit(b, v) && ListFits(b, v) && OneReleaser(b) && Takes(b, b', v, v', p, m) && MemberFits(b', v', p)
    ensures AllFit(b', v')
  {
    assert b'.list[v'.backlog..] == b.list[v.backlog..];
    forall q | 0 <= q < |b'.members| && q != p
      ensures MemberFits(b', v', q)
    {
      assert MemberFits(b, v, q);
      assert !Releasing(b.members[q]);
    }
  }

  lemma TakesList(b: Barrier, b': Barrier, v: View, v': View, p: nat, m: Member)
    requires ListFits(b, v) && OneReleaser(b) && Takes(b, b', v, v', p, m)
    ensures ListFits(b', v') && OneReleaser(b') && SomeReleaser(b')
  {
    forall i | 0 <= i < |b'.list|
      ensures b'.list[i] == b.list[i + 1]
    {
    }
    assert Releasing(b'.members[p]);
  }

  lemma TakesDue(b: Barrier, b': Barrier, v: View, v': View, p: nat, m: Member)
    requires ListFits(b, v) && AllDueFound(b, v) && Takes(b, b', v, v', p, m)
    requires b.list[0] == p || (m.pc.ReleaseSchedule? && m.op == b.list[0])
    ensures AllDueFound(b', v')
  {
    assert b.list[..v.backlog] == [b.list[0]] + b'.list[..v'.backlog];
    forall q | 0 <= q < |b'.members| && Due(b'.members[q], v'.epoch)
      ensures q in b'.list[..v'.backlog] || InHand(b', q)
    {
      assert b'.members[q] == b.members[q];
      if InHand(b, q) {
        StillInHand(b, b', p, m, q);
      } else if q == b.list[0] {
        assert b'.members[p].pc.ReleaseSchedule? && b'.members[p].op == q;
      }
    }
  }

  lemma TakesKeeps(b: Barrier, b': Barrier, v: View, v': View, p: nat, m: Member)
    requires Inv(b, v) && Takes(b, b', v, v', p, m) && MemberFits(b', v', p)
    requires b.list[0] == p || (m.pc.ReleaseSchedule? && m.op == b.list[0])
    ensures Inv(b', v')
  {
    CountFrame(b, b', v, p, m);
    TakesFits(b, b', v, v', p, m);
    TakesList(b, b', v, v', p, m);
    TakesDue(b, b', v, v', p, m);
  }

  /** The front of the list is the releaser itself, when it enlisted, or a waiter of the round it releases. */
  lemma FrontDue(b: Barrier, v: View, p: nat)
    requires Inv(b, v) && p < |b.members| && b.members[p].pc.ReleaseTake? && b.members[p].todo != 0
    ensures 0 < v.backlog <= |b.list| && b.list[0] < |b.members| && b.list[0] !in b.list[1..]
    ensures (b.members[p].enlisted && b.list[0] == p) || (b.list[0] != p && Due(b.members[b.list[0]], v.epoch))
  {
    assert MemberFits(b, v, p);
    assert OfLastRound(b.members[b.list[0]], v.epoch);
  }

  lemma TakeKeeps(b: Barrier, v: View, p: nat)
    requires Inv(b, v) && p < |b.members| && b.members[p].pc.ReleaseTake? && b.members[p].todo != 0
    ensures Inv(Access(b, p, false), Track(b, v, Step(p, false)))
  {
    assert MemberFits(b, v, p);
    FrontDue(b, v, p);
    var b', v' := Access(b, p, false), v.(backlog := v.backlog - 1);
    assert b'.list[v'.backlog..] == b.list[v.backlog..];
    TakesKeeps(b, b', v, v', p, b'.members[p]);
  }

  lemma ScheduleFits(b: Barrier, v: View, p: nat)
    requires AllFit(b, v) && ListFits(b, v) && OneReleaser(b) && p < |b.members| && b.members[p].pc.ReleaseSchedule?
    ensures AllFit(Access(b, p, false), v)
  {
    var b' := Access(b, p, false);
    assert MemberFits(b, v, p);
    assert MemberFits(b, v, b.members[p].op);
    forall q | 0 <= q < |b'.members|
      ensures MemberFits(b', v, q)
    {
      assert MemberFits(b, v, q);
      assert q != p ==> !Releasing(b.members[q]);
    }
  }

  lemma ScheduleCount(b: Barrier, v: View, p: nat)
    requires p < |b.members| && b.members[p].pc.ReleaseSchedule? && MemberFits(b, v, p)
    ensures Total(Access(b, p, false).members, CountedAt(v.epoch)) == Total(b.members, CountedAt(v.epoch))
  {
    var m := b.members[p];
    var first := b.members[p := m.(pc := ReleaseTake, todo := m.todo - 1)];
    TotalUpdate(b.members, CountedAt(v.epoch), p, m.(pc := ReleaseTake, todo := m.todo - 1));
    TotalUpdate(first, CountedAt(v.epoch), m.op, b.members[m.op].(pc := Released));
  }

  lemma OnlyHand(b: Barrier, p: nat, q: nat)
    requires OneReleaser(b) && p < |b.members| && b.members[p].pc.ReleaseSchedule? && InHand(b, q)
    ensures b.members[p].op == q
  {
  }

  lemma ScheduleDue(b: Barrier, v: View, p: nat)
    requires AllDueFound(b, v) && OneReleaser(b) && p < |b.members| && b.members[p].pc.ReleaseSchedule?
    requires MemberFits(b, v, p)
    ensures AllDueFound(Access(b, p, false), v)
  {
    var b' := Access(b, p, false);
    forall q | 0 <= q < |b'.members| && Due(b'.members[q], v.epoch)
      ensures v.backlog <= |b'.list| && q in b'.list[..v.backlog]
    {
      assert b'.members[q] == b.members[q];
      if InHand(b, q) {
        OnlyHand(b, p, q);
      }
    }
  }

  lemma ScheduleList(b: Barrier, v: View, p: nat)
    requires ListFits(b, v) && OneReleaser(b) && p < |b.members| && b.members[p].pc.ReleaseSchedule?
    requires MemberFits(b, v, p)
    ensures ListFits(Access(b, p, false), v) && OneReleaser(Access(b, p, false)) && SomeReleaser(Access(b, p, false))
  {
    var b' := Access(b, p, false);
    forall i | 0 <= i < v.backlog
      ensures OfLastRound(b'.members[b'.list[i]], v.epoch)
    {
      assert b.list[i] in b.list;
    }
    assert Releasing(b'.members[p]);
  }

  lemma ScheduleKeeps(b: Barrier, v: View, p: nat)
    requires Inv(b, v) && p < |b.members| && b.members[p].pc.ReleaseSchedule?
    ensures Inv(Access(b, p, false), v)
  {
    assert MemberFits(b, v, p);
    ScheduleFits(b, v, p);
    ScheduleCount(b, v, p);
    ScheduleDue(b, v, p);
    ScheduleList(b, v, p);
  }

  // ---------------------------------------------------------------------
  // All moves
  // ---------------------------------------------------------------------

  lemma InitialInv(b: Barrier)
    requires Initial(b)
    ensures Inv(b, View(0, 0))
  {
    forall p | 0 <= p < |b.members|
      ensures MemberFits(b, View(0, 0), p)
    {
    }
    TotalZero(b.members, CountedAt(0));
  }

  /** The invariant is kept by every move. */
  lemma Preserved(b: Barrier, v: View, m: Move)
    requires Inv(b, v)
    ensures Inv(Next(b, m), Track(b, v, m))
  {
    if Enabled(b, m) {
      assert MemberFits(b, v, m.p);
      match m
      case Await(p, look) => AsideKeeps(b, Next(b, m), v, p, Next(b, m).members[p]);
      case Step(p, weak) => StepPreserves(b, v, p, weak);
    }
  }

  lemma StepPreserves(b: Barrier, v: View, p: nat, weak: bool)
    requires Inv(b, v) && Enabled(b, Step(p, weak))
    ensures Inv(Access(b, p, weak), Track(b, v, Step(p, weak)))
  {
    assert MemberFits(b, v, p);
    var pc := b.members[p].pc;
    if StepsAside(pc) {
      AsideStep(b, v, p, weak);
      AsideKeeps(b, Access(b, p, weak), v, p, Access(b, p, weak).members[p]);
    } else if pc.ArriveEnqueue? {
      EntersKeeps(b, Access(b, p, weak), v, p, b.members[p].(pc := ArriveTest));
    } else {
      ReleasePreserves(b, v, p, weak);
    }
  }

  lemma ReleasePreserves(b: Barrier, v: View, p: nat, weak: bool)
    requires Inv(b, v) && p < |b.members| && (b.members[p].pc.ReleaseZero? || Releasing(b.members[p]))
    ensures Inv(Access(b, p, weak), Track(b, v, Step(p, weak)))
  {
    ReleaseStep(b, v, p, weak);
    if b.members[p].pc.ReleaseZero? {
      ZeroKeeps(b, v, p);
    } else if b.members[p].pc.ReleaseSchedule? {
      ScheduleKeeps(b, v, p);
    } else if b.members[p].todo == 0 {
      ReturnsKeeps(b, v, p);
    } else {
      TakeKeeps(b, v, p);
    }
  }

  /** A release does not depend on luck. */
  lemma ReleaseStep(b: Barrier, v: View, p: nat, weak: bool)
    requires p < |b.members| && (b.members[p].pc.ReleaseZero? || Releasing(b.members[p]))
    ensures Access(b, p, weak) == Access(b, p, false) && Track(b, v, Step(p, weak)) == Track(b, v, Step(p, false))
    ensures b.members[p].pc.ReleaseZero? ==> Track(b, v, Step(p, false)) == View(v.epoch + 1, |b.list|)
    ensures b.members[p].pc.ReleaseSchedule? || (b.members[p].pc.ReleaseTake? && b.members[p].todo == 0) ==>
              Track(b, v, Step(p, false)) == v
  {
  }
}
