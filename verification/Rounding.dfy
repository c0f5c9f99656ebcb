/** Rounding up by a bit mask, on 64-bit words. */
module Rounding {

  const TWO_TO_THE_64 := 0x1_0000_0000_0000_0000

  type Word64 = w: int | 0 <= w < TWO_TO_THE_64

  function Pow2(n: nat): (p: nat)
    ensures p > 0
  {
    if n == 0 then 1 else 2 * Pow2(n - 1)
  }

  /** The bits that both have. */
  function BitAnd(x: nat, y: nat): nat {
    if x == 0 || y == 0 then 0 else 2 * BitAnd(x / 2, y / 2) + (if x % 2 == 1 && y % 2 == 1 then 1 else 0)
  }

  function Complement(w: Word64): Word64 {
    TWO_TO_THE_64 - 1 - w
  }

  function Wrap(x: int): Word64 {
    x % TWO_TO_THE_64
  }

  function RoundToMultiple(v: Word64, m: Word64): nat {
    BitAnd(Wrap(v + m - 1), Complement(Wrap(m - 1)))
  }

  ghost predicate IsMultiple(x: int, m: nat) {
    exists q :: x == Times(q, m)
  }

  function Times(q: int, m: int): int {
    q * m
  }

  ghost predicate LeastMultiple(r: int, v: int, m: nat) {
    && IsMultiple(r, m) && v <= r
    && forall n :: IsMultiple(n, m) && v <= n ==> r <= n
  }

  lemma {:induction false} AllOnes(x: nat, n: nat)
    requires x < Pow2(n)
    ensures BitAnd(x, Pow2(n) - 1) == x
  {
    if n > 0 && x > 0 {
      assert (Pow2(n) - 1) / 2 == Pow2(n - 1) - 1;
      AllOnes(x / 2, n - 1);
    }
  }

  lemma HalfMask(x: nat, a: nat, b: nat)
    requires b <= a
    ensures BitAnd(x, 2 * a - 2 * b) == 2 * BitAnd(x / 2, a - b)
  {
    assert (2 * a - 2 * b) / 2 == a - b;
  }

  /** Clearing the lowest k of n bits rounds down to a multiple of 2^k. */
  lemma {:induction false} MaskRoundsDown(x: nat, n: nat, k: nat) returns (q: nat)
    requires k <= n && x < Pow2(n)
    ensures Pow2(k) <= Pow2(n)
    ensures BitAnd(x, Pow2(n) - Pow2(k)) == Times(q, Pow2(k)) <= x < Times(q + 1, Pow2(k))
  {
    hide BitAnd, Times;
    if k == 0 {
      AllOnes(x, n);
      q := x;
      TimesOne(x);
      TimesOne(x + 1);
    } else {
      q := MaskRoundsDown(x / 2, n - 1, k - 1);
      HalfMask(x, Pow2(n - 1), Pow2(k - 1));
      TimesDouble(q, Pow2(k - 1));
      TimesDouble(q + 1, Pow2(k - 1));
    }
  }

  lemma TimesOne(x: int)
    ensures Times(x, 1) == x
  {
  }

  lemma TimesDouble(q: int, m: int)
    ensures Times(q, 2 * m) == 2 * Times(q, m)
  {
  }

  lemma TimesMonotonic(p: int, q: int, m: nat)
    requires p < q
    ensures Times(p + 1, m) <= Times(q, m)
  {
  }

  lemma Pow2Of64()
    ensures Pow2(64) == TWO_TO_THE_64
  {
    assert Pow2(8) == 256;
    assert Pow2(16) == 0x1_0000;
    assert Pow2(24) == 0x100_0000;
    assert Pow2(32) == 0x1_0000_0000;
    assert Pow2(40) == 0x100_0000_0000;
    assert Pow2(48) == 0x1_0000_0000_0000;
    assert Pow2(56) == 0x100_0000_0000_0000;
  }

  lemma TimesNext(q: int, m: int)
    ensures Times(q + 1, m) == Times(q, m) + m
    ensures Times(0, m) == 0
  {
  }

  /** The largest multiple up to v + m - 1 is the smallest from v on. */
  lemma FloorIsLeast(q: int, v: int, m: nat)
    requires m > 0
    requires Times(q, m) <= v + m - 1 < Times(q + 1, m)
    ensures LeastMultiple(Times(q, m), v, m)
  {
    hide Times;
    TimesNext(q, m);
    assert IsMultiple(Times(q, m), m);
    forall n | IsMultiple(n, m) && v <= n
      ensures Times(q, m) <= n
    {
      var p :| n == Times(p, m);
      TimesNext(p, m);
      if p < q {
        TimesMonotonic(p, q, m);
      } else if q < p {
        TimesMonotonic(q, p, m);
      }
    }
  }

  /** For every power of two, the mask form gives the least multiple that is no less than `v`, exactly if
      the sum does not wrap; if it does wrap, the result is zero. */
  lemma RoundsUpExactly(v: Word64, k: nat)
    requires k < 64
    ensures Pow2(k) < TWO_TO_THE_64
    ensures LeastMultiple(RoundToMultiple(v, Pow2(k)), v, Pow2(k)) <==> v + Pow2(k) - 1 < TWO_TO_THE_64
    ensures v + Pow2(k) - 1 >= TWO_TO_THE_64 ==> RoundToMultiple(v, Pow2(k)) == 0
  {
    hide BitAnd, Times, Pow2;
    Pow2Of64();
    Pow2Increases(k, 64);
    var m := Pow2(k);
    var sum := Wrap(v + m - 1);
    var q := MaskRoundsDown(sum, 64, k);
    assert RoundToMultiple(v, m) == Times(q, m);
    if v + m - 1 < TWO_TO_THE_64 {
      FloorIsLeast(q, v, m);
    } else {
      TimesNext(0, m);
      if q > 0 {
        TimesMonotonic(0, q, m);
      }
    }
  }

  lemma {:induction false} Pow2Increases(k: nat, n: nat)
    requires k < n
    ensures Pow2(k) < Pow2(n)
  {
    if k < n - 1 {
      Pow2Increases(k, n - 1);
    }
  }
}
