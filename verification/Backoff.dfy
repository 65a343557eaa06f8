/** Exponential backoff in 64-bit arithmetic, shared by the Lens client's retries
    and the Lens stream's reconnects. */
module Backoff {
  import opened Basics

  newtype int64 = x: int | -0x8000_0000_0000_0000 <= x < 0x8000_0000_0000_0000

  /** The bounds that configuration checks leave possible. */
  predicate Bounds(min: int64, max: int64) {
    0 < min <= max
  }

  function Pow2(n: nat): (p: nat)
    ensures p >= 1
  {
    if n == 0 then 1 else 2 * Pow2(n - 1)
  }

  lemma {:induction false} Pow2Grows(m: nat, n: nat)
    requires m <= n
    ensures Pow2(m) <= Pow2(n)
  {
    if m < n {
      Pow2Grows(m, n - 1);
    }
  }

  lemma Pow2Of63()
    ensures Pow2(63) == 0x8000_0000_0000_0000
  {
    assert Pow2(8) == 0x100;
    assert Pow2(16) == 0x1_0000;
    assert Pow2(24) == 0x100_0000;
    assert Pow2(32) == 0x1_0000_0000;
    assert Pow2(40) == 0x100_0000_0000;
    assert Pow2(48) == 0x1_0000_0000_0000;
    assert Pow2(56) == 0x100_0000_0000_0000;
  }

  /** The wait before the n-th try: doubled each time and capped.  The cap is
      reached as soon as doubling would come within one unit of it, so an odd cap
      may be reached one unit early. */
  function Wait(min: int, max: int, n: int): int {
    if n <= 1 then min
    else if min * Pow2(n - 1) >= 2 * (max / 2) then max
    else min * Pow2(n - 1)
  }

  /** The loop of doublings never overflows, takes at most 63 rounds, and computes
      the closed form. */
  method Compute(min: int64, max: int64, n: int) returns (d: int64, ghost rounds: nat)
    requires Bounds(min, max)
    ensures d as int == Wait(min as int, max as int, n)
    ensures rounds <= 63
  {
    d, rounds := min, 0;
    var i := 0;
    while i < n - 1
      invariant i == rounds
      invariant 0 <= i && (n <= 1 ==> i == 0) && (n > 1 ==> i <= n - 1)
      invariant d as int == min as int * Pow2(i)
      invariant min <= d
      invariant i > 0 ==> d as int < 2 * (max as int / 2)
      decreases n - 1 - i
    {
      FewDoublings(min as int, max as int, i);
      if d >= max / 2 {
        PastHalf(min as int, max as int, i, n);
        return max, rounds + 1;
      }
      assert d as int * 2 == min as int * Pow2(i + 1);
      d := d * 2;
      i, rounds := i + 1, rounds + 1;
    }
    FewDoublings(min as int, max as int, i);
    if d > max {
      d := max;
    }
  }

  /** A doubled value still below the cap has been doubled fewer than 63 times. */
  lemma FewDoublings(min: int, max: int, i: nat)
    requires 0 < min <= max < 0x8000_0000_0000_0000
    requires i > 0 ==> min * Pow2(i) < 2 * (max / 2)
    ensures i < 63
  {
    if i >= 63 {
      Pow2Of63();
      Pow2Grows(63, i);
      MulGrows(Pow2(i), 1, min);
    }
  }

  /** Once past half of the cap, every later doubling is past the cap. */
  lemma PastHalf(min: int, max: int, i: nat, n: int)
    requires 0 < min <= max && i < n - 1
    requires min * Pow2(i) >= max / 2
    ensures Wait(min, max, n) == max
  {
    Pow2Grows(i + 1, n - 1);
    MulGrows(min, Pow2(i + 1), Pow2(n - 1));
    assert min * Pow2(i + 1) == 2 * (min * Pow2(i));
  }

  /** Within the bounds, and the plain capped doubling except for an odd cap that is
      exactly one above it. */
  lemma WaitIsCappedDoubling(min: int, max: int, n: int)
    requires 0 < min <= max
    ensures min <= Wait(min, max, n) <= max
    ensures n >= 1 ==>
      var plain := min * Pow2(n - 1);
      if n > 1 && max % 2 == 1 && plain == max - 1 then Wait(min, max, n) == plain + 1
      else Wait(min, max, n) == (if plain < max then plain else max)
  {
    if n > 1 {
      MulGrows(min, 1, Pow2(n - 1));
    }
  }

  lemma WaitIsMonotone(min: int, max: int, m: int, n: int)
    requires 0 < min <= max && m <= n
    ensures Wait(min, max, m) <= Wait(min, max, n)
  {
    WaitIsCappedDoubling(min, max, n);
    WaitIsCappedDoubling(min, max, m);
    if 1 < m {
      Pow2Grows(m - 1, n - 1);
      MulGrows(min, Pow2(m - 1), Pow2(n - 1));
    }
  }
}
