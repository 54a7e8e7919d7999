/** A thread that moves alone: the same access over and over. */
module Undisturbed {

  /** What `n` advances make of `x`. */
  function After<T>(advance: T -> T, x: T, n: nat): T
    decreases n
  {
    if n == 0 then x else After(advance, advance(x), n - 1)
  }

  lemma {:induction false} AfterMore<T>(advance: T -> T, x: T, a: nat, b: nat)
    ensures After(advance, x, a + b) == After(advance, After(advance, x, a), b)
    decreases a
  {
    if a > 0 {
      AfterMore(advance, advance(x), a - 1, b);
    }
  }

  lemma AfterFew<T>(advance: T -> T, x: T)
    ensures After(advance, x, 0) == x
    ensures After(advance, x, 1) == advance(x)
    ensures After(advance, x, 2) == advance(advance(x))
    ensures After(advance, x, 3) == advance(advance(advance(x)))
  {
    assert After(advance, x, 1) == After(advance, advance(x), 0);
    assert After(advance, x, 2) == After(advance, advance(x), 1) == After(advance, advance(advance(x)), 0);
    assert After(advance, x, 3) == After(advance, advance(x), 2);
    assert After(advance, advance(x), 2) == After(advance, advance(advance(x)), 1);
    assert After(advance, advance(advance(x)), 1) == After(advance, advance(advance(advance(x))), 0);
  }
}
