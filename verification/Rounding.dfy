/** The rounding macros of Utils.h for an alignment that is a power of two, in unsigned words
    of any width, and in signed ones whose sums wrap around. */
module Rounding {

  function Pow2(n: nat): (p: nat)
    ensures p > 0
  {
    if n == 0 then 1 else 2 * Pow2(n - 1)
  }

  /** Bitwise and, on the bits of two non-negative numbers. */
  function And(a: nat, b: nat): nat {
    if a == 0 then 0 else (if a % 2 == 1 && b % 2 == 1 then 1 else 0) + 2 * And(a / 2, b / 2)
  }

  /** Bitwise complement in width bits. */
  function Not(width: nat, a: nat): nat
    requires a < Pow2(width)
  {
    Pow2(width) - 1 - a
  }

  /** Addition in width bits: it wraps around. */
  function Plus(width: nat, a: nat, b: nat): (r: nat)
    ensures r < Pow2(width)
  {
    (a + b) % Pow2(width)
  }

  /** ((num) + ((align) - 1)) & ~((align) - 1) */
  function RoundUpN(width: nat, num: nat, align: nat): nat
    requires 0 < align <= Pow2(width)
  {
    And(Plus(width, num, align - 1), Not(width, align - 1))
  }

  /** (num) & ~((align) - 1) */
  function RoundDownN(width: nat, num: nat, align: nat): nat
    requires 0 < align <= Pow2(width)
  {
    And(num, Not(width, align - 1))
  }

  /** The complement really flips every bit: it takes a away from the all-ones word. */
  lemma {:induction false} AndComplement(width: nat, a: nat, b: nat)
    requires a < Pow2(width) && b < Pow2(width)
    ensures And(a, b) + And(a, Not(width, b)) == a
    decreases width
  {
    if a > 0 {
      NotHalves(width, b);
      AndComplement(width - 1, a / 2, b / 2);
    }
  }

  lemma NotHalves(width: nat, b: nat)
    requires b < Pow2(width) && width > 0
    ensures Not(width, b) % 2 == 1 - b % 2 && Not(width, b) / 2 == Not(width - 1, b / 2)
  {
  }

  lemma {:induction false} Pow2Mono(k: nat, n: nat)
    requires k <= n
    ensures Pow2(k) <= Pow2(n)
  {
    if k < n {
      Pow2Mono(k, n - 1);
    }
  }

  /** Masking with 2^k - 1 keeps the remainder. */
  lemma {:induction false} AndLowMask(a: nat, k: nat)
    ensures And(a, Pow2(k) - 1) == a % Pow2(k)
    decreases k
  {
    if k == 0 {
      AndZero(a);
    } else {
      AndLowMask(a / 2, k - 1);
      var p := Pow2(k - 1);
      assert (Pow2(k) - 1) % 2 == 1 && (Pow2(k) - 1) / 2 == p - 1;
      HalveMod(a, p);
    }
  }

  lemma {:induction false} AndZero(a: nat)
    ensures And(a, 0) == 0
  {
    if a > 0 {
      AndZero(a / 2);
    }
  }

  lemma HalveMod(a: nat, p: nat)
    requires p > 0
    ensures a % (2 * p) == a % 2 + 2 * (a / 2 % p)
  {
    var q, r := a / 2 / p, a / 2 % p;
    assert a / 2 == q * p + r;
    assert a == q * (2 * p) + (2 * r + a % 2);
    ModUnique(a, 2 * p, q, 2 * r + a % 2);
  }

  lemma MulSign(d: int, m: nat)
    ensures d >= 1 ==> d * m >= m
    ensures d <= -1 ==> d * m + m <= 0
    ensures d <= 0 ==> d * m <= 0
  {
  }

  lemma ModUnique(a: int, m: nat, q: int, r: nat)
    requires r < m && a == q * m + r
    ensures a % m == r && a / m == q
  {
    MulSign(a / m - q, m);
    assert (a / m - q) * m + a % m == r;
  }

  lemma RoundDownValue(width: nat, num: nat, k: nat)
    requires k <= width && num < Pow2(width)
    ensures Pow2(k) <= Pow2(width) && RoundDownN(width, num, Pow2(k)) == num - num % Pow2(k)
  {
    Pow2Mono(k, width);
    AndComplement(width, num, Pow2(k) - 1);
    AndLowMask(num, k);
  }

  ghost predicate IsMultiple(m: int, align: nat)
    requires align > 0
  {
    m % align == 0
  }

  /** r is the greatest multiple of align not above num. */
  ghost predicate IsFloor(r: int, num: nat, align: nat)
    requires align > 0
  {
    IsMultiple(r, align) && r <= num && forall m :: IsMultiple(m, align) && m <= num ==> m <= r
  }

  /** r is the least multiple of align not below num. */
  ghost predicate IsCeiling(r: int, num: nat, align: nat)
    requires align > 0
  {
    IsMultiple(r, align) && num <= r && forall m :: IsMultiple(m, align) && num <= m ==> r <= m
  }

  lemma MultiplesApart(m: int, n: int, align: nat)
    requires align > 0 && IsMultiple(m, align) && IsMultiple(n, align) && m < n
    ensures m + align <= n
  {
    assert m == m / align * align && n == n / align * align;
    assert n - m == (n / align - m / align) * align;
    MulSign(n / align - m / align, align);
  }

  lemma FloorValue(num: nat, align: nat)
    requires align > 0
    ensures IsFloor(num - num % align, num, align)
  {
    var r := num - num % align;
    assert r == num / align * align;
    ModUnique(r, align, num / align, 0);
    forall m | IsMultiple(m, align) && m <= num ensures m <= r {
      if r < m {
        MultiplesApart(r, m, align);
      }
    }
  }

  /** ROUND_DOWN_N gives the greatest multiple not above its argument, for every number of the
      width and every power of two that fits. */
  lemma RoundDownIsFloor(width: nat, num: nat, k: nat)
    requires k <= width && num < Pow2(width)
    ensures Pow2(k) <= Pow2(width) && IsFloor(RoundDownN(width, num, Pow2(k)), num, Pow2(k))
  {
    Pow2Mono(k, width);
    RoundDownValue(width, num, k);
    FloorValue(num, Pow2(k));
  }

  lemma CeilingFromFloor(r: int, num: nat, align: nat)
    requires align > 0 && IsFloor(r, num + align - 1, align)
    ensures IsCeiling(r, num, align)
  {
    assert r + align == (r / align + 1) * align;
    ModUnique(r + align, align, r / align + 1, 0);
    assert IsMultiple(r + align, align);
    forall m | IsMultiple(m, align) && num <= m ensures r <= m {
      if m < r {
        MultiplesApart(m, r, align);
      }
    }
  }

  /** Without overflow of the word the sum loses its remainder and nothing else. */
  lemma RoundUpValue(width: nat, num: nat, k: nat)
    requires k <= width && num + Pow2(k) - 1 < Pow2(width)
    ensures Pow2(k) <= Pow2(width)
    ensures IsFloor(RoundUpN(width, num, Pow2(k)), num + Pow2(k) - 1, Pow2(k))
  {
    var sum := num + Pow2(k) - 1;
    Pow2Mono(k, width);
    ModUnique(sum, Pow2(width), 0, sum);
    RoundDownValue(width, sum, k);
    FloorValue(sum, Pow2(k));
  }

  /** ROUND_UP_N gives the least multiple not below its argument exactly when the sum it forms
      does not overflow the width; when it does, the result is 0. */
  lemma RoundUpIsCeilingIff(width: nat, num: nat, k: nat)
    requires k <= width && num < Pow2(width)
    ensures Pow2(k) <= Pow2(width)
    ensures IsCeiling(RoundUpN(width, num, Pow2(k)), num, Pow2(k)) <==> num + Pow2(k) - 1 < Pow2(width)
    ensures num + Pow2(k) - 1 >= Pow2(width) ==> RoundUpN(width, num, Pow2(k)) == 0
  {
    Pow2Mono(k, width);
    var align, sum := Pow2(k), num + Pow2(k) - 1;
    if sum < Pow2(width) {
      RoundUpValue(width, num, k);
      CeilingFromFloor(RoundUpN(width, num, align), num, align);
    } else {
      RoundDownValue(width, Plus(width, num, align - 1), k);
      ModUnique(sum, Pow2(width), 1, sum - Pow2(width));
      ModUnique(sum - Pow2(width), align, 0, sum - Pow2(width));
    }
  }

  /** The two's complement number a word stands for. */
  function Signed(width: nat, word: nat): int
    requires width > 0
  {
    if word < Pow2(width - 1) then word else word - Pow2(width)
  }

  lemma {:induction false} Pow2Divides(k: nat, n: nat) returns (d: nat)
    requires k <= n
    ensures Pow2(n) == d * Pow2(k)
  {
    d := 1;
    if k < n {
      var half := Pow2Divides(k, n - 1);
      d := 2 * half;
      assert d * Pow2(k) == 2 * (half * Pow2(k));
    }
  }

  /** In a signed type ROUND_UP_N gives the least multiple not below a non-negative number exactly
      when the sum does not overflow that type; when it does, a sum that wraps around is negative. */
  lemma RoundUpSignedIff(width: nat, num: nat, k: nat)
    requires k < width && num < Pow2(width - 1)
    ensures Pow2(k) <= Pow2(width)
    ensures var r := Signed(width, RoundUpN(width, num, Pow2(k)));
            && (IsCeiling(r, num, Pow2(k)) <==> num + Pow2(k) - 1 < Pow2(width - 1))
            && (num + Pow2(k) - 1 >= Pow2(width - 1) ==> r < 0)
  {
    var align, half := Pow2(k), Pow2(width - 1);
    Pow2Mono(k, width - 1);
    RoundUpIsCeilingIff(width, num, k);
    RoundUpValue(width, num, k);
    if num + align - 1 >= half {
      var d := Pow2Divides(k, width - 1);
      ModUnique(half, align, d, 0);
      assert IsMultiple(half, align);
    }
  }
}
