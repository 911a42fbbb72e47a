/** How libev's arrays grow. */
module ArrayGrowth {

  const MALLOC_ROUND := 4096
  const OVERHEAD := 32        // four pointers

  /** Clearing the low twelve bits of a number that is not negative. */
  function RoundDown(n: nat): (r: nat)
    ensures r <= n < r + MALLOC_ROUND && r % MALLOC_ROUND == 0
  {
    n / MALLOC_ROUND * MALLOC_ROUND
  }

  function Pow2(k: nat): nat {
    if k == 0 then 1 else 2 * Pow2(k - 1)
  }

  lemma MulMono(elem: nat, a: nat, b: nat)
    requires a <= b
    ensures elem * a <= elem * b
  {
  }

  /** The rounding in `array_nextsize`. */
  method FillPages(elem: nat, doubled: nat) returns (ncur: nat)
    requires elem > 0
    ensures ncur > doubled && elem * ncur >= elem * doubled
    ensures elem * ncur < elem * (doubled + 1) + MALLOC_ROUND
    ensures exists bytes: nat :: bytes % MALLOC_ROUND == 0 && elem * ncur + OVERHEAD <= bytes < elem * (ncur + 1) + OVERHEAD
  {
    ncur := doubled * elem;
    ncur := RoundDown(ncur + elem + (MALLOC_ROUND - 1) + OVERHEAD);
    ghost var bytes: nat := ncur;
    ncur := ncur - OVERHEAD;
    assert elem * (doubled + 1) == doubled * elem + elem;
    ncur := ncur / elem;
    MulMono(elem, doubled, ncur);
    assert bytes % MALLOC_ROUND == 0 && elem * ncur + OVERHEAD <= bytes < elem * (ncur + 1) + OVERHEAD;
  }

  /** `array_nextsize`, as long as no int overflows: the doubled size, or for a large array the
      number of elements that fill the pages up, less what malloc needs. */
  method NextSize(elem: nat, cur: nat, cnt: int) returns (ncur: nat)
    requires elem > 0
    ensures ncur >= cnt && ncur >= 2 * (cur + 1)
    ensures elem * ncur <= MALLOC_ROUND - OVERHEAD ==>
      exists k: nat :: k > 0 && ncur == (cur + 1) * Pow2(k) && (k == 1 || (cur + 1) * Pow2(k - 1) < cnt)
    ensures exists k: nat :: k > 0 && (k == 1 || (cur + 1) * Pow2(k - 1) < cnt)
                             && elem * ncur < elem * ((cur + 1) * Pow2(k) + 1) + MALLOC_ROUND
    ensures elem * ncur > MALLOC_ROUND - OVERHEAD ==>
      exists bytes: nat :: bytes % MALLOC_ROUND == 0 && elem * ncur + OVERHEAD <= bytes < elem * (ncur + 1) + OVERHEAD
  {
    ncur := 2 * (cur + 1);
    ghost var k := 1;
    assert Pow2(1) == 2 * Pow2(0);
    while cnt > ncur
      invariant k > 0 && ncur == (cur + 1) * Pow2(k) && ncur >= 2 * (cur + 1)
      invariant k == 1 || (cur + 1) * Pow2(k - 1) < cnt
      decreases cnt - ncur
    {
      assert (cur + 1) * Pow2(k + 1) == 2 * ((cur + 1) * Pow2(k)) by {
        assert Pow2(k + 1) == 2 * Pow2(k);
      }
      ncur := ncur * 2;
      k := k + 1;
    }
    assert elem * ncur < elem * (ncur + 1) + MALLOC_ROUND by {
      MulMono(elem, ncur, ncur + 1);
    }
    assert k > 0 && ncur == (cur + 1) * Pow2(k);
    if elem * ncur > MALLOC_ROUND - OVERHEAD {
      ncur := FillPages(elem, ncur);
    }
  }

  /** `array_needsize`: the capacity after it covers cnt elements, and nothing shrinks. */
  method NeedSize(elem: nat, cur: nat, cnt: int) returns (capacity: nat)
    requires elem > 0
    ensures capacity >= cnt && capacity >= cur
    ensures cnt <= cur ==> capacity == cur
  {
    capacity := cur;
    if cnt > cur {
      capacity := NextSize(elem, cur, cnt);
    }
  }
}
