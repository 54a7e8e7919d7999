/** Sums and multiset unions over the local states of any number of threads. */
module Tally {

  datatype Option<T> = None | Some(value: T)

  /** No coroutine, no node. */
  const NULL: nat := 0

  /** The width of the list's counter. */
  const WORD: int := 0x1_0000_0000_0000_0000

  ghost predicate Distinct<T>(q: seq<T>) {
    forall i, j :: 0 <= i < j < |q| ==> q[i] != q[j]
  }

  function One(b: bool): int {
    if b then 1 else 0
  }

  /** What a variable that may be null holds. */
  function Bag(c: nat): multiset<nat> {
    if c == NULL then multiset{} else multiset{c}
  }

  lemma FrontCount(q: seq<nat>, c: nat)
    requires q != []
    ensures multiset(q)[c] == multiset(q[1..])[c] + One(c == q[0])
  {
    assert q == [q[0]] + q[1..];
  }

  /** The sum of the weights of the elements of `s`. */
  ghost function Total<T>(s: seq<T>, weight: T -> int): int {
    if s == [] then 0 else weight(s[0]) + Total(s[1..], weight)
  }

  lemma {:induction false} TotalUpdate<T>(s: seq<T>, weight: T -> int, i: nat, x: T)
    requires i < |s|
    ensures Total(s[i := x], weight) == Total(s, weight) - weight(s[i]) + weight(x)
  {
    if i == 0 {
      assert s[i := x][1..] == s[1..];
    } else {
      assert s[i := x][1..] == s[1..][i - 1 := x];
      TotalUpdate(s[1..], weight, i - 1, x);
    }
  }

  lemma {:induction false} TotalAppend<T>(s: seq<T>, weight: T -> int, x: T)
    ensures Total(s + [x], weight) == Total(s, weight) + weight(x)
  {
    if s == [] {
      assert Total([x], weight) == weight(x) + Total([x][1..], weight);
    } else {
      assert (s + [x])[1..] == s[1..] + [x];
      TotalAppend(s[1..], weight, x);
    }
  }

  lemma {:induction false} TotalBound<T>(s: seq<T>, weight: T -> int, low: int, high: int)
    requires forall i :: 0 <= i < |s| ==> low <= weight(s[i]) <= high
    ensures low * |s| <= Total(s, weight) <= high * |s|
  {
    if s != [] {
      assert forall i :: 0 <= i < |s[1..]| ==> s[1..][i] == s[i + 1];
      TotalBound(s[1..], weight, low, high);
      assert low * |s| == low + low * |s[1..]|;
      assert high * |s| == high + high * |s[1..]|;
    }
  }

  /** A sum of non-negative weights dominates each of them. */
  lemma {:induction false} TotalDominates<T>(s: seq<T>, weight: T -> int, i: nat)
    requires i < |s|
    requires forall k :: 0 <= k < |s| ==> weight(s[k]) >= 0
    ensures Total(s, weight) >= weight(s[i])
  {
    assert forall k :: 0 <= k < |s[1..]| ==> s[1..][k] == s[k + 1];
    if i == 0 {
      TotalNonNegative(s[1..], weight);
    } else {
      TotalDominates(s[1..], weight, i - 1);
    }
  }

  lemma {:induction false} TotalNonNegative<T>(s: seq<T>, weight: T -> int)
    requires forall k :: 0 <= k < |s| ==> weight(s[k]) >= 0
    ensures Total(s, weight) >= 0
  {
    if s != [] {
      assert forall k :: 0 <= k < |s[1..]| ==> s[1..][k] == s[k + 1];
      TotalNonNegative(s[1..], weight);
    }
  }

  /** A positive sum of non-negative weights has a positive one. */
  lemma {:induction false} TotalSource<T>(s: seq<T>, weight: T -> int) returns (i: nat)
    requires Total(s, weight) > 0
    ensures i < |s| && weight(s[i]) > 0
  {
    if weight(s[0]) > 0 {
      i := 0;
    } else {
      i := TotalSource(s[1..], weight);
      i := i + 1;
    }
  }

  /** Weights that are all zero add up to zero. */
  lemma {:induction false} TotalZero<T>(s: seq<T>, weight: T -> int)
    requires forall k :: 0 <= k < |s| ==> weight(s[k]) == 0
    ensures Total(s, weight) == 0
  {
    TotalBound(s, weight, 0, 0);
  }

  lemma {:induction false} TotalShort<T>(s: seq<T>, weight: T -> int, r: nat)
    requires r < |s| && weight(s[r]) == 0
    requires forall k :: 0 <= k < |s| ==> weight(s[k]) <= 1
    ensures Total(s, weight) <= |s| - 1
  {
    assert forall k :: 0 <= k < |s[1..]| ==> s[1..][k] == s[k + 1];
    if r > 0 {
      TotalShort(s[1..], weight, r - 1);
    } else {
      TotalAtMost(s[1..], weight);
    }
  }

  lemma {:induction false} TotalAtMost<T>(s: seq<T>, weight: T -> int)
    requires forall k :: 0 <= k < |s| ==> weight(s[k]) <= 1
    ensures Total(s, weight) <= |s|
  {
    if s != [] {
      assert forall k :: 0 <= k < |s[1..]| ==> s[1..][k] == s[k + 1];
      TotalAtMost(s[1..], weight);
    }
  }

  /** When 0/1 weights reach the number of elements less one, and `r` weighs nothing, every other element weighs one. */
  lemma {:induction false} TotalFull<T>(s: seq<T>, weight: T -> int, r: nat)
    requires r < |s| && weight(s[r]) == 0
    requires forall k :: 0 <= k < |s| ==> 0 <= weight(s[k]) <= 1
    requires Total(s, weight) == |s| - 1
    ensures forall k :: 0 <= k < |s| && k != r ==> weight(s[k]) == 1
  {
    assert forall k :: 0 <= k < |s[1..]| ==> s[1..][k] == s[k + 1];
    TotalBound(s[1..], weight, 0, 1);
    if r == 0 {
      TotalAllOnes(s[1..], weight);
      forall k | 0 <= k < |s| && k != r
        ensures weight(s[k]) == 1
      {
        assert s[k] == s[1..][k - 1];
      }
    } else {
      TotalShort(s[1..], weight, r - 1);
      TotalFull(s[1..], weight, r - 1);
      forall k | 0 <= k < |s| && k != r
        ensures weight(s[k]) == 1
      {
        if k > 0 {
          assert s[k] == s[1..][k - 1];
        }
      }
    }
  }

  lemma {:induction false} TotalAllOnes<T>(s: seq<T>, weight: T -> int)
    requires forall k :: 0 <= k < |s| ==> 0 <= weight(s[k]) <= 1
    requires Total(s, weight) == |s|
    ensures forall k :: 0 <= k < |s| ==> weight(s[k]) == 1
  {
    if s != [] {
      assert forall k :: 0 <= k < |s[1..]| ==> s[1..][k] == s[k + 1];
      TotalBound(s[1..], weight, 0, 1);
      TotalAllOnes(s[1..], weight);
      forall k | 0 <= k < |s|
        ensures weight(s[k]) == 1
      {
        if k > 0 {
          assert s[k] == s[1..][k - 1];
        }
      }
    }
  }

  /** The multiset union of what the elements of `s` hold. */
  ghost function Gather<T, E>(s: seq<T>, held: T -> multiset<E>): multiset<E> {
    if s == [] then multiset{} else held(s[0]) + Gather(s[1..], held)
  }

  lemma {:induction false} GatherUpdate<T, E>(s: seq<T>, held: T -> multiset<E>, i: nat, x: T)
    requires i < |s|
    ensures held(s[i]) <= Gather(s, held)
    ensures Gather(s[i := x], held) == Gather(s, held) - held(s[i]) + held(x)
  {
    if i == 0 {
      assert s[i := x][1..] == s[1..];
    } else {
      assert s[i := x][1..] == s[1..][i - 1 := x];
      GatherUpdate(s[1..], held, i - 1, x);
      assert s[1..][i - 1] == s[i];
    }
  }

  /** Whatever is gathered is held by some element. */
  lemma {:induction false} GatherSource<T, E>(s: seq<T>, held: T -> multiset<E>, e: E) returns (i: nat)
    requires e in Gather(s, held)
    ensures i < |s| && e in held(s[i])
  {
    if e in held(s[0]) {
      i := 0;
    } else {
      i := GatherSource(s[1..], held, e);
      i := i + 1;
    }
  }

  lemma GatherContains<T, E>(s: seq<T>, held: T -> multiset<E>, i: nat)
    requires i < |s|
    ensures held(s[i]) <= Gather(s, held)
  {
    GatherUpdate(s, held, i, s[i]);
  }

  /** Two elements hold disjoint parts of the union. */
  lemma {:induction false} GatherPair<T, E>(s: seq<T>, held: T -> multiset<E>, i: nat, j: nat)
    requires i < j < |s|
    ensures held(s[i]) + held(s[j]) <= Gather(s, held)
  {
    if i == 0 {
      GatherContains(s[1..], held, j - 1);
      assert s[1..][j - 1] == s[j];
    } else {
      GatherPair(s[1..], held, i - 1, j - 1);
      assert s[1..][j - 1] == s[j] && s[1..][i - 1] == s[i];
    }
  }

  lemma {:induction false} GatherNothing<T, E>(s: seq<T>, held: T -> multiset<E>)
    requires forall i :: 0 <= i < |s| ==> held(s[i]) == multiset{}
    ensures Gather(s, held) == multiset{}
  {
    if s != [] {
      assert forall i :: 0 <= i < |s[1..]| ==> s[1..][i] == s[i + 1];
      GatherNothing(s[1..], held);
    }
  }
}
