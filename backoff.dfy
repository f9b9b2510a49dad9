/** Exponential backoff as the retry loops compute it: `backoff_factor * 2 ** attempt`. */
module Backoff {

  function Pow2(n: nat): (r: nat)
    ensures r >= 1
  {
    if n == 0 then 1 else 2 * Pow2(n - 1)
  }

  /** Seconds slept before retrying after attempt `attempt` failed with a rate limit. */
  function Wait(backoff: int, attempt: nat): int {
    backoff * Pow2(attempt)
  }

  /** The waits of `n` consecutive rate-limited attempts starting at `from`. */
  function Waits(backoff: int, from: nat, n: nat): (w: seq<int>)
    ensures |w| == n
    ensures forall j :: 0 <= j < n ==> w[j] == Wait(backoff, from + j)
    decreases n
  {
    if n == 0 then [] else [Wait(backoff, from)] + Waits(backoff, from + 1, n - 1)
  }

  /** The first wait, then the waits of the attempts after it. */
  lemma WaitsCons(backoff: int, from: nat, n: nat)
    ensures Waits(backoff, from, n + 1) == [Wait(backoff, from)] + Waits(backoff, from + 1, n)
  {
  }

  /** Each wait doubles the previous one. */
  lemma {:induction false} WaitsDouble(backoff: int, from: nat, n: nat)
    ensures forall j :: 0 < j < n ==> Waits(backoff, from, n)[j] == 2 * Waits(backoff, from, n)[j - 1]
  {
    forall j | 0 < j < n
      ensures Waits(backoff, from, n)[j] == 2 * Waits(backoff, from, n)[j - 1]
    {
      assert Pow2(from + j) == 2 * Pow2(from + j - 1);
    }
  }
}
