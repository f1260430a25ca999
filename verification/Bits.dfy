/** Bit arithmetic on unbounded naturals, as Python's integers have it: the
    shifts, the mask, xor, the bit count and the Hamming distance that
    py-processor/dedupe.py is written with. */
module Bits {
  function Pow2(n: nat): (p: nat)
    ensures p >= 1
  {
    if n == 0 then 1 else 2 * Pow2(n - 1)
  }

  /** `h >> n` */
  function Shr(h: nat, n: nat): nat {
    if n == 0 then h else Shr(h / 2, n - 1)
  }

  /** `h << n` */
  function Shl(h: nat, n: nat): nat {
    if n == 0 then h else 2 * Shl(h, n - 1)
  }

  /** `h & ((1 << n) - 1)` */
  function Mask(h: nat, n: nat): nat {
    if n == 0 then 0 else 2 * Mask(h / 2, n - 1) + h % 2
  }

  /** `(h >> i) & 1` */
  predicate Bit(h: nat, i: nat) {
    Shr(h, i) % 2 == 1
  }

  /** `a ^ b` */
  function Xor(a: nat, b: nat): nat
    decreases a + b
  {
    if a == 0 && b == 0 then 0
    else 2 * Xor(a / 2, b / 2) + if a % 2 != b % 2 then 1 else 0
  }

  /** `n.bit_count()` */
  function BitCount(n: nat): nat {
    if n == 0 then 0 else n % 2 + BitCount(n / 2)
  }

  function Hamming(a: nat, b: nat): nat {
    BitCount(Xor(a, b))
  }

  /** The number of positions below n at which a and b differ. */
  function CountDiff(a: nat, b: nat, n: nat): nat {
    if n == 0 then 0
    else CountDiff(a, b, n - 1) + if Bit(a, n - 1) != Bit(b, n - 1) then 1 else 0
  }

  // ---- shifts and masks are division, multiplication, remainder -------

  lemma MulGe(k: int, m: nat)
    requires k >= 1
    ensures k * m >= m
  {}

  /** Quotient and remainder are unique. */
  lemma DivModUnique(x: nat, m: nat, q: nat, r: nat)
    requires m > 0 && x == q * m + r && r < m
    ensures x / m == q && x % m == r
  {
    var d := q - x / m;
    assert d * m == x % m - r;
    if d >= 1 {
      MulGe(d, m);
      assert false;
    } else if d <= -1 {
      MulGe(-d, m);
      assert false;
    }
  }

  lemma {:induction false} ShiftParts(h: nat, n: nat)
    ensures h == Shr(h, n) * Pow2(n) + Mask(h, n)
    ensures Mask(h, n) < Pow2(n)
  {
    if n > 0 {
      ShiftParts(h / 2, n - 1);
      Doubled(Shr(h / 2, n - 1), Pow2(n - 1));
      assert h == 2 * (h / 2) + h % 2;
    }
  }

  lemma Doubled(x: nat, m: nat)
    ensures x * (2 * m) == 2 * (x * m)
  {}

  /** The recursive shift, mask and left shift are what the operators mean. */
  lemma ShiftIsDivision(h: nat, n: nat)
    ensures Shr(h, n) == h / Pow2(n)
    ensures Mask(h, n) == h % Pow2(n)
    ensures Shl(h, n) == h * Pow2(n)
    ensures Bit(h, n) <==> h / Pow2(n) % 2 == 1
  {
    ShiftParts(h, n);
    DivModUnique(h, Pow2(n), Shr(h, n), Mask(h, n));
    ShlIsMul(h, n);
  }

  lemma {:induction false} ShlIsMul(h: nat, n: nat)
    ensures Shl(h, n) == h * Pow2(n)
  {
    if n > 0 {
      ShlIsMul(h, n - 1);
      assert 2 * (h * Pow2(n - 1)) == h * Pow2(n);
    }
  }

  // ---- composing shifts and masks --------------------------------------

  lemma {:induction false} ShrAdd(h: nat, i: nat, j: nat)
    ensures Shr(h, i + j) == Shr(Shr(h, i), j)
  {
    if i > 0 {
      ShrAdd(h / 2, i - 1, j);
    }
  }

  lemma {:induction false} ShrOfShl(h: nat, k: nat, s: nat)
    requires k <= s
    ensures Shr(Shl(h, k), s) == Shr(h, s - k)
  {
    if k > 0 {
      ShrOfShl(h, k - 1, s - 1);
    }
  }

  lemma {:induction false} ShrOfMask(h: nat, n: nat, i: nat)
    requires i <= n
    ensures Shr(Mask(h, n), i) == Mask(Shr(h, i), n - i)
  {
    if i > 0 {
      assert Mask(h, n) / 2 == Mask(h / 2, n - 1);
      ShrOfMask(h / 2, n - 1, i - 1);
    }
  }

  lemma {:induction false} MaskOfMask(h: nat, n: nat, m: nat)
    requires m <= n
    ensures Mask(Mask(h, n), m) == Mask(h, m)
  {
    if m > 0 {
      var x := Mask(h, n);
      assert x / 2 == Mask(h / 2, n - 1) && x % 2 == h % 2;
      MaskOfMask(h / 2, n - 1, m - 1);
    }
  }

  lemma {:induction false} MaskOfShl(h: nat, w: nat, n: nat)
    requires w <= n
    ensures Mask(Shl(h, w), n) == Shl(Mask(h, n - w), w)
  {
    if w > 0 {
      var x := Shl(h, w);
      assert x / 2 == Shl(h, w - 1) && x % 2 == 0;
      MaskOfShl(h, w - 1, n - 1);
    }
  }

  /** A number below 2^n is its own mask. */
  lemma {:induction false} MaskSmall(h: nat, n: nat)
    requires h < Pow2(n)
    ensures Mask(h, n) == h
  {
    if n > 0 {
      MaskSmall(h / 2, n - 1);
    }
  }

  lemma BitOfMask(h: nat, n: nat, i: nat)
    requires i < n
    ensures Bit(Mask(h, n), i) == Bit(h, i)
  {
    ShrOfMask(h, n, i);
  }

  // ---- Hamming distance ----------------------------------------------

  lemma HammingStep(a: nat, b: nat)
    ensures Hamming(a, b) == Hamming(a / 2, b / 2) + if a % 2 != b % 2 then 1 else 0
  {
    var low := if a % 2 != b % 2 then 1 else 0;
    if a != 0 || b != 0 {
      var x := Xor(a, b);
      assert x == 2 * Xor(a / 2, b / 2) + low;
      assert x / 2 == Xor(a / 2, b / 2) && x % 2 == low;
    }
  }

  lemma {:induction false} HammingZero(a: nat, b: nat)
    ensures Hamming(a, b) == 0 <==> a == b
    decreases a + b
  {
    if a != 0 || b != 0 {
      HammingStep(a, b);
      HammingZero(a / 2, b / 2);
    }
  }

  lemma {:induction false} HammingSymmetric(a: nat, b: nat)
    ensures Hamming(a, b) == Hamming(b, a)
    decreases a + b
  {
    if a != 0 || b != 0 {
      HammingStep(a, b);
      HammingStep(b, a);
      HammingSymmetric(a / 2, b / 2);
    }
  }

  /** Cutting both numbers at any bit position splits their distance. */
  lemma {:induction false} HammingSplit(a: nat, b: nat, w: nat)
    ensures Hamming(a, b) == Hamming(Shr(a, w), Shr(b, w)) + Hamming(Mask(a, w), Mask(b, w))
  {
    if w == 0 {
      HammingZero(0, 0);
    } else {
      HammingStep(a, b);
      HammingSplit(a / 2, b / 2, w - 1);
      MaskHalves(a, w);
      MaskHalves(b, w);
      HammingStep(Mask(a, w), Mask(b, w));
    }
  }

  lemma MaskHalves(h: nat, n: nat)
    requires n > 0
    ensures Mask(h, n) / 2 == Mask(h / 2, n - 1) && Mask(h, n) % 2 == h % 2
  {
    var m := Mask(h / 2, n - 1);
    assert Mask(h, n) == 2 * m + h % 2;
  }

  /** The top of n + 1 bits adds one to the distance if it differs. */
  lemma HammingTop(a: nat, b: nat, n: nat)
    ensures Hamming(Mask(a, n + 1), Mask(b, n + 1))
         == Hamming(Mask(a, n), Mask(b, n)) + if Bit(a, n) != Bit(b, n) then 1 else 0
  {
    HammingSplit(Mask(a, n + 1), Mask(b, n + 1), n);
    MaskOfMask(a, n + 1, n);
    MaskOfMask(b, n + 1, n);
    ShrOfMask(a, n + 1, n);
    ShrOfMask(b, n + 1, n);
    HammingBit(Shr(a, n) % 2, Shr(b, n) % 2);
  }

  /** Below 2^n the distance is the count of differing bits. */
  lemma {:induction false} HammingCountsBits(a: nat, b: nat, n: nat)
    ensures Hamming(Mask(a, n), Mask(b, n)) == CountDiff(a, b, n)
  {
    if n == 0 {
      HammingZero(0, 0);
    } else {
      HammingTop(a, b, n - 1);
      HammingCountsBits(a, b, n - 1);
    }
  }

  lemma HammingBit(p: nat, q: nat)
    requires p < 2 && q < 2
    ensures Hamming(p, q) == if p != q then 1 else 0
  {
    HammingStep(p, q);
    HammingZero(0, 0);
  }
}
