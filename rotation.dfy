/**
 * The index step shared by the two tickers (app/components/alert-ticker.tsx and
 * app/components/news-ticker-banner.tsx): each tick replaces the index `prev` with
 * `(prev + 1) % length`. Here the step is applied to a non-empty length; what happens on an
 * empty list is modelled by the alert ticker itself.
 */
module Rotation {

  /** One tick: the next position, wrapping from the last back to the first. */
  function Next(i: nat, n: nat): (r: nat)
    requires n > 0
    ensures r < n
    ensures i < n ==> r == (if i + 1 == n then 0 else i + 1)
  {
    (i + 1) % n
  }

  /** The position after `k` ticks from `i`. */
  function Advance(i: nat, n: nat, k: nat): (r: nat)
    requires n > 0
    ensures i < n || k > 0 ==> r < n
    decreases k
  {
    if k == 0 then i else Next(Advance(i, n, k - 1), n)
  }

  /** Within one round, `k` ticks from a position `i` either move it forward `k` places or wrap once. */
  lemma {:induction false} AdvanceWithinRound(i: nat, n: nat, k: nat)
    requires i < n && k <= n
    ensures Advance(i, n, k) == if i + k < n then i + k else i + k - n
  {
    if k > 0 {
      AdvanceWithinRound(i, n, k - 1);
    }
  }

  /** Ticking `a` times and then `b` times is ticking `a + b` times. */
  lemma {:induction false} AdvanceAdd(i: nat, n: nat, a: nat, b: nat)
    requires n > 0
    ensures Advance(i, n, a + b) == Advance(Advance(i, n, a), n, b)
  {
    if b > 0 {
      AdvanceAdd(i, n, a, b - 1);
    }
  }

  /** After `n` ticks every position is back where it started. */
  lemma AdvancePeriod(i: nat, n: nat, k: nat)
    requires i < n
    ensures Advance(i, n, n) == i
    ensures Advance(i, n, k + n) == Advance(i, n, k)
  {
    AdvanceWithinRound(i, n, n);
    AdvanceAdd(i, n, k, n);
    AdvanceWithinRound(Advance(i, n, k), n, n);
  }

  /**
   * Over any `n` consecutive ticks every position is visited exactly once: for each target
   * `j` there is one tick count `k < n` reaching it, and no other.
   */
  lemma EachPositionOncePerRound(i: nat, n: nat, j: nat)
    requires i < n && j < n
    ensures exists k :: 0 <= k < n && Advance(i, n, k) == j
    ensures forall k, l :: 0 <= k < n && 0 <= l < n && Advance(i, n, k) == j && Advance(i, n, l) == j ==> k == l
  {
    var k := if i <= j then j - i else j + n - i;
    AdvanceWithinRound(i, n, k);
    forall k, l | 0 <= k < n && 0 <= l < n && Advance(i, n, k) == j && Advance(i, n, l) == j
      ensures k == l
    {
      AdvanceWithinRound(i, n, k);
      AdvanceWithinRound(i, n, l);
    }
  }
}
