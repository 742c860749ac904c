/** The crate-root alignment helpers `align_down` and `align_up`, used by the block
    to widen ranges to the non-coherent atom size. The helpers take a mask
    `m == atom - 1`; they are only meaningful when the atom `m + 1` is a power of two,
    which is what `IsAlignMask` says. */
module Align {
  import opened Types

  /** `k` is a multiple of the atom `m + 1`. */
  predicate Aligned(k: int, m: u64) {
    k % (m + 1) == 0
  }

  /** `m + 1` divides 2^64, that is, `m + 1` is a power of two (the only divisors of
      2^64). The atom sizes the allocator passes (`non_coherent_atom_size`) have this form. */
  predicate IsAlignMask(m: u64) {
    Aligned(WORD, m)
  }

  function Pow2(k: nat): (r: nat)
    ensures r > 0
  {
    if k == 0 then 1 else 2 * Pow2(k - 1)
  }

  lemma {:induction false} Pow2Add(a: nat, b: nat)
    ensures Pow2(a + b) == Pow2(a) * Pow2(b)
  {
    if a > 0 {
      Pow2Add(a - 1, b);
    }
  }

  lemma Pow2Word()
    ensures Pow2(64) == WORD
  {
    assert Pow2(1) == 2;
    Pow2Add(1, 1);
    Pow2Add(2, 2);
    Pow2Add(4, 4);
    Pow2Add(8, 8);
    Pow2Add(16, 16);
    Pow2Add(32, 32);
  }

  lemma MulAtLeast(a: nat, t: int)
    requires a > 0 && t >= 1
    ensures a * t >= a
  {
    assert a * t == a * (t - 1) + a;
    assert a * (t - 1) >= 0;
  }

  /** A product `a * q` leaves no remainder modulo `a` (uniqueness of Euclidean division). */
  lemma ModOfMultiple(a: nat, q: int)
    requires a > 0
    ensures (a * q) % a == 0
  {
    var k := a * q;
    var d, r := k / a, k % a;
    assert k == a * d + r && 0 <= r < a;
    assert a * (q - d) == r;
    if q - d >= 1 {
      MulAtLeast(a, q - d);
    } else if q - d <= -1 {
      MulAtLeast(a, d - q);
    }
  }

  /** Removing the remainder leaves a multiple. */
  lemma RoundDown(x: int, a: nat)
    requires a > 0
    ensures (x - x % a) % a == 0 && 0 <= x % a < a
  {
    assert x - x % a == a * (x / a);
    ModOfMultiple(a, x / a);
  }

  /** Every power-of-two atom size up to 2^64 gives an alignment mask. */
  lemma PowerOfTwoMask(k: nat)
    requires k <= 64
    ensures 0 <= Pow2(k) - 1 <= U64_MAX && IsAlignMask(Pow2(k) - 1)
  {
    Pow2Word();
    Pow2Add(k, 64 - k);
    MulAtLeast(Pow2(k), Pow2(64 - k));
    ModOfMultiple(Pow2(k), Pow2(64 - k));
  }

  /** `align_down(x, m)`: the largest multiple of the atom `m + 1` that is at most `x`
      (`x & !m` in the crate). */
  function AlignDown(x: u64, m: u64): (r: u64)
    requires IsAlignMask(m)
    ensures Aligned(r, m)
    ensures r <= x < r + m + 1
    ensures Aligned(x, m) ==> r == x
  {
    RoundDown(x, m + 1);
    x - x % (m + 1)
  }

  /** `align_up(x, m)`: `x.checked_add(m)` then cleared of the mask bits. It is `None`
      exactly when `x` lies within `m` of `u64::MAX`; otherwise it is the smallest
      multiple of the atom `m + 1` that is at least `x`. */
  function AlignUp(x: u64, m: u64): (r: Option<u64>)
    requires IsAlignMask(m)
    ensures r.None? <==> x > U64_MAX - m
    ensures r.Some? ==> Aligned(r.value, m) && x <= r.value < x + m + 1
    ensures r.Some? && Aligned(x, m) ==> r.value == x
  {
    if x + m > U64_MAX then None
    else
      var s := x + m;
      RoundDown(s, m + 1);
      assert Aligned(x, m) ==> s % (m + 1) == m by {
        if Aligned(x, m) {
          assert s == (m + 1) * (x / (m + 1)) + m;
          DivModUnique(s, m + 1, x / (m + 1), m);
        }
      }
      Some(s - s % (m + 1))
  }

  /** Euclidean division has a unique quotient and remainder. */
  lemma DivModUnique(k: int, a: nat, q: int, r: int)
    requires a > 0 && k == a * q + r && 0 <= r < a
    ensures k % a == r
  {
    var d := k / a;
    assert a * (q - d) == k % a - r;
    if q - d >= 1 {
      MulAtLeast(a, q - d);
    } else if q - d <= -1 {
      MulAtLeast(a, d - q);
    }
  }

  /** Two distinct multiples of the atom are at least one atom apart. */
  lemma AlignedApart(k: int, l: int, m: u64)
    requires Aligned(k, m) && Aligned(l, m) && k < l
    ensures l - k >= m + 1
  {
    var a := m + 1;
    var p, q := k / a, l / a;
    assert k == a * p + k % a;
    assert l == a * q + l % a;
    assert l - k == a * (q - p) by {
      assert a * q - a * p == a * (q - p);
    }
    MulSign(a, q - p);
  }

  lemma MulSign(a: nat, t: int)
    requires a > 0
    ensures t >= 1 ==> a * t >= a
    ensures t <= 0 ==> a * t <= 0
  {
    if t >= 1 {
      MulAtLeast(a, t);
    } else {
      assert a * t == -(a * (-t));
      assert a * (-t) >= 0;
    }
  }

  /** `align_up` fails exactly when no multiple of the atom lies between `x` and
      `u64::MAX`, i.e. when the rounded-up value would not be representable. */
  lemma AlignUpNoneIffUnrepresentable(x: u64, m: u64)
    requires IsAlignMask(m)
    ensures AlignUp(x, m).None? <==> (forall k :: Aligned(k, m) && x <= k ==> k > U64_MAX)
  {
    if AlignUp(x, m).None? {
      forall k | Aligned(k, m) && x <= k
        ensures k > U64_MAX
      {
        if k <= U64_MAX {
          AlignedApart(k, WORD, m);
        }
      }
    } else {
      var r := AlignUp(x, m).value;
      assert Aligned(r, m) && x <= r && r <= U64_MAX;
    }
  }
}
