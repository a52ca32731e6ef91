/** Multiples of a number, quotients and rests. */
module Multiples {
  /** `x` is a non-negative multiple of `step`. */
  predicate Aligned(x: int, step: int)
    requires step > 0
    decreases x
  {
    x == 0 || (x >= step && Aligned(x - step, step))
  }

  lemma DivModStep(x: int, step: int)
    requires step > 0 && x >= 0
    ensures x == x / step * step + x % step
    ensures 0 <= x % step < step && x / step >= 0
  {
  }

  lemma {:induction false} AlignedMultiple(n: nat, step: int)
    requires step > 0
    ensures Aligned(n * step, step)
  {
    if n > 0 {
      AlignedMultiple(n - 1, step);
      assert n * step == (n - 1) * step + step && (n - 1) * step >= 0;
    }
  }

  /** Two aligned numbers are equal or at least one step apart. */
  lemma {:induction false} AlignedGap(x: int, y: int, step: int)
    requires step > 0 && Aligned(x, step) && Aligned(y, step) && x < y
    ensures x + step <= y && Aligned(y - x, step)
    decreases x
  {
    if x > 0 {
      AlignedGap(x - step, y - step, step);
    }
  }

  lemma MulAtLeast(n: int, i: int)
    requires n >= 1 && i > 0
    ensures n * i >= i && -n * i <= -i
  {
  }

  lemma {:induction false} AlignedIsMultiple(x: int, step: int) returns (n: nat)
    requires step > 0 && Aligned(x, step)
    ensures x == step * n
    decreases x
  {
    if x == 0 {
      n := 0;
    } else {
      var m := AlignedIsMultiple(x - step, step);
      n := m + 1;
      assert step * (m + 1) == step * m + step;
    }
  }

  lemma AlignedQuotient(x: int, step: int)
    requires step > 0 && Aligned(x, step)
    ensures x / step >= 0 && x == step * (x / step)
  {
    var n := AlignedIsMultiple(x, step);
    QuotRem(x, step, n, 0);
  }

  lemma QuotRem(n: nat, p: nat, q: nat, r: nat)
    requires n == p * q + r && r < p
    ensures n / p == q && n % p == r
  {
    var d := n / p;
    assert (d - q) * p == r - n % p;
    if d > q {
      MulAtLeast(d - q, p);
    } else if d < q {
      MulAtLeast(q - d, p);
    }
  }
}
