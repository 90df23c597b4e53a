/** `align_up` of crates/radio-core/src/rtl8812au.rs: masking off low bits rounds up to a power of two. */
module Align {
  function Pow2(n: nat): (p: nat)
    ensures p >= 1
  {
    if n == 0 then 1 else 2 * Pow2(n - 1)
  }

  /** Bitwise and of two natural numbers. */
  function And(x: nat, y: nat): nat {
    if x == 0 || y == 0 then 0
    else 2 * And(x / 2, y / 2) + (if x % 2 == 1 && y % 2 == 1 then 1 else 0)
  }

  const USIZE_LIMIT := 0x1_0000_0000_0000_0000

  /** Bitwise complement of a 64-bit value. */
  function Not64(y: nat): nat
    requires y < USIZE_LIMIT
  {
    USIZE_LIMIT - 1 - y
  }

  function AlignUp(value: nat, alignment: nat): nat
    requires 1 <= alignment && value + alignment <= USIZE_LIMIT
  {
    And(value + alignment - 1, Not64(alignment - 1))
  }

  lemma ModHalf(x: nat, m: nat)
    requires m >= 1
    ensures x % (2 * m) == 2 * ((x / 2) % m) + x % 2
  {
    var h, q := x / 2, (x / 2) / m;
    assert h == q * m + h % m;
    assert x == q * (2 * m) + (2 * (h % m) + x % 2);
    ModUnique(x, 2 * m, q, 2 * (h % m) + x % 2);
  }

  lemma ModUnique(x: nat, d: nat, q: nat, r: nat)
    requires r < d && x == q * d + r
    ensures x % d == r && x / d == q
  {
    var q', r' := x / d, x % d;
    assert x == q' * d + r';
    if q < q' {
      MulStep(q, q', d);
    } else if q' < q {
      MulStep(q', q, d);
    }
  }

  lemma MulStep(a: nat, b: nat, d: nat)
    requires a < b
    ensures a * d + d <= b * d
  {
    assert (b - a - 1) * d >= 0;
    assert b * d == a * d + d + (b - a - 1) * d;
  }

  /** Masking with the bits from `k` up to `n` clears exactly the low `k` bits of a value below 2^n. */
  lemma {:induction false} AndHighMask(x: nat, n: nat, k: nat)
    requires k <= n && x < Pow2(n)
    ensures Pow2(k) <= Pow2(n) && And(x, Pow2(n) - Pow2(k)) == x - x % Pow2(k)
  {
    if n > 0 {
      AndHighMask(x / 2, n - 1, if k == 0 then 0 else k - 1);
      if k > 0 {
        ModHalf(x, Pow2(k - 1));
      }
    }
  }

  lemma Pow2Limit()
    ensures Pow2(64) == USIZE_LIMIT
  {
    assert Pow2(8) == 0x100;
    assert Pow2(16) == 0x1_0000;
    assert Pow2(24) == 0x100_0000;
    assert Pow2(32) == 0x1_0000_0000;
    assert Pow2(40) == 0x100_0000_0000;
    assert Pow2(48) == 0x1_0000_0000_0000;
    assert Pow2(56) == 0x100_0000_0000_0000;
  }

  lemma RoundUp(value: nat, a: nat)
    requires a >= 1
    ensures var x := value + a - 1;
            var r := x - x % a;
            r % a == 0 && value <= r < value + a && forall m: nat | m % a == 0 && value <= m :: r <= m
  {
    var x := value + a - 1;
    var q := x / a;
    assert x - x % a == q * a;
    ModUnique(q * a, a, q, 0);
    forall m: nat | m % a == 0 && value <= m
      ensures q * a <= m
    {
      var p := m / a;
      assert m == p * a;
      if p < q {
        MulStep(p, q, a);
      } else {
        assert p == q || p > q;
        if p > q {
          MulStep(q, p, a);
        }
      }
    }
  }

  lemma AlignUpMasks(value: nat, a: nat, k: nat)
    requires k < 64 && a == Pow2(k) && value + a <= USIZE_LIMIT
    ensures AlignUp(value, a) == (value + a - 1) - (value + a - 1) % a
  {
    Pow2Limit();
    AndHighMask(value + a - 1, 64, k);
  }

  /** For every power of two the result is the least multiple not below the value. */
  lemma AlignUpIsLeastMultiple(value: nat, a: nat, k: nat)
    requires k < 64 && a == Pow2(k) && value + a <= USIZE_LIMIT
    ensures var r := AlignUp(value, a);
            && r % a == 0 && value <= r < value + a && forall m: nat | m % a == 0 && value <= m :: r <= m
  {
    AlignUpMasks(value, a, k);
    RoundUp(value, a);
  }
}
