/** `ceilToPow2` of include/moodycammel_queue.hpp: rounding up to a power of two by smearing bits. */
module PowerOfTwo {
  import opened Words
  import Circular

  /** The least power of two that is at least x, starting the search at 2^k. */
  function RoundUp(x: nat, k: nat): nat
    decreases if Pow2(k) < x then x - Pow2(k) else 0
  {
    if x <= Pow2(k) then Pow2(k) else RoundUp(x, k + 1)
  }

  /** The least power of two that is at least x. */
  function LeastPow2(x: nat): nat {
    RoundUp(x, 0)
  }

  /** What `ceilToPow2` computes in 64 bits: nothing above 2^63 can be rounded up, and 0 wraps. */
  function Ceil64(x: nat): nat {
    if 1 <= x <= TopBit then LeastPow2(x) else 0
  }

  ghost predicate IsPow2(x: nat) {
    exists k: nat :: x == Pow2(k)
  }

  lemma {:induction false} RoundUpIs(x: nat, k: nat, h: nat)
    requires k <= h && x <= Pow2(h) && (k < h ==> Pow2(h - 1) < x)
    ensures RoundUp(x, k) == Pow2(h)
    decreases h - k
  {
    if k < h {
      Pow2Monotone(k, h - 1);
      RoundUpIs(x, k + 1, h);
    }
  }

  /** It is a power of two, it is at least x, and every power of two that is at least x is at least as large. */
  lemma LeastPow2IsLeast(x: nat) returns (h: nat)
    requires x >= 1
    ensures LeastPow2(x) == Pow2(h) && x <= Pow2(h) && (h > 0 ==> Pow2(h - 1) < x)
    ensures forall j: nat :: x <= Pow2(j) ==> LeastPow2(x) <= Pow2(j)
  {
    h := 0;
    while Pow2(h) < x
      invariant h > 0 ==> Pow2(h - 1) < x
      decreases x - Pow2(h)
    {
      h := h + 1;
    }
    RoundUpIs(x, 0, h);
    forall j: nat | x <= Pow2(j)
      ensures Pow2(h) <= Pow2(j)
    {
      if j < h {
        Pow2Monotone(j, h - 1);
        assert false;
      }
      Pow2Monotone(h, j);
    }
  }

  // ---------------------------------------------------------------- bits

  /** `|` leaves bits above position m alone when the other operand has none there. */
  lemma {:induction false} OrLow(a: nat, c: nat, b: nat, y: nat, m: nat)
    requires c == a * Pow2(m) && b < Pow2(m) && y < Pow2(m)
    ensures Or(c + b, y) == c + Or(b, y)
    ensures y <= Or(b, y) < Pow2(m)
    decreases m
  {
    if m == 0 {
    } else {
      var half := a * Pow2(m - 1);
      Double(a, Pow2(m - 1));
      assert c == 2 * half;
      OrLow(a, half, b / 2, y / 2, m - 1);
      OrStep(half, b, y);
    }
  }

  lemma Double(a: nat, p: nat)
    ensures a * (2 * p) == 2 * (a * p)
  {
  }

  lemma OrStep(c: nat, b: nat, y: nat)
    requires Or(c + b / 2, y / 2) == c + Or(b / 2, y / 2) && y / 2 <= Or(b / 2, y / 2)
    ensures Or(2 * c + b, y) == 2 * c + Or(b, y)
    ensures y <= Or(b, y) <= 2 * Or(b / 2, y / 2) + 1
  {
    OrUnfold(2 * c + b, y);
    OrUnfold(b, y);
    assert (2 * c + b) / 2 == c + b / 2 && (2 * c + b) % 2 == b % 2;
  }

  lemma OrUnfold(a: nat, b: nat)
    ensures Or(a, b) == 2 * Or(a / 2, b / 2) + (if a % 2 == 1 || b % 2 == 1 then 1 else 0)
  {
  }

  lemma {:induction false} ShrIsDiv(a: nat, s: nat, q: nat, r: nat)
    requires a == q * Pow2(s) + r && r < Pow2(s)
    ensures Shr(a, s) == q
    decreases s
  {
    if s == 0 {
    } else {
      var p := Pow2(s - 1);
      assert a == 2 * (q * p) + r;
      assert a / 2 == q * p + r / 2;
      ShrIsDiv(a / 2, s - 1, q, r / 2);
    }
  }

  /** x has h bits, and its top s bits (or all of them) are ones. */
  predicate TopOnes(x: nat, h: nat, s: nat) {
    && x < Pow2(h)
    && x + Pow2(if s <= h then h - s else 0) >= Pow2(h)
  }

  /** `x |= x >> s` doubles the number of leading ones. */
  lemma Smear(x: nat, h: nat, s: nat)
    requires s >= 1 && TopOnes(x, h, s)
    ensures TopOnes(Or(x, Shr(x, s)), h, 2 * s)
  {
    if h <= s {
      Pow2Monotone(h, s);
      ShrIsDiv(x, s, 0, x);
    } else {
      ShiftedTop(x, h, s);
      OrTop(x, h, s, Shr(x, s));
    }
  }

  /** The leading ones of x survive `|`. */
  lemma OrAbove(x: nat, c: nat, a: nat, m: nat, y: nat)
    requires c == a * Pow2(m) && c <= x < c + Pow2(m) && y < Pow2(m)
    ensures c + y <= Or(x, y) < c + Pow2(m)
  {
    OrLow(a, c, x - c, y, m);
  }

  lemma TopIsMultiple(h: nat, s: nat)
    requires s <= h
    ensures Pow2(h) - Pow2(h - s) == (Pow2(s) - 1) * Pow2(h - s) >= 0
  {
    Pow2Add(s, h - s);
    MulPred(Pow2(s), Pow2(h - s));
  }

  lemma OrTop(x: nat, h: nat, s: nat, y: nat)
    requires 1 <= s < h && x < Pow2(h) && x + Pow2(h - s) >= Pow2(h) && y < Pow2(h - s)
    ensures Pow2(h) - Pow2(h - s) + y <= Or(x, y) < Pow2(h)
  {
    TopIsMultiple(h, s);
    OrAbove(x, Pow2(h) - Pow2(h - s), Pow2(s) - 1, h - s, y);
  }

  /** Shifted right by s, a number with s leading ones still has them, or is nothing but ones. */
  lemma ShiftedTop(x: nat, h: nat, s: nat)
    requires 1 <= s < h && x < Pow2(h) && x + Pow2(h - s) >= Pow2(h)
    ensures Shr(x, s) < Pow2(h - s)
    ensures Shr(x, s) + Pow2(if 2 * s <= h then h - 2 * s else 0) >= Pow2(h - s)
  {
    var y, r := Split(x, Pow2(s));
    ShrIsDiv(x, s, y, r);
    QuotientTop(x, h, s, y, r);
  }

  lemma MulPred(a: nat, b: nat)
    requires a >= 1
    ensures (a - 1) * b == a * b - b
  {
  }

  lemma Split(x: nat, p: nat) returns (q: nat, r: nat)
    requires p >= 1
    ensures x == q * p + r && r < p
  {
    q, r := x / p, x % p;
  }

  lemma QuotientTop(x: nat, h: nat, s: nat, y: nat, r: nat)
    requires 1 <= s < h && x < Pow2(h) && x + Pow2(h - s) >= Pow2(h)
    requires x == y * Pow2(s) + r && r < Pow2(s)
    ensures y < Pow2(h - s)
    ensures y + Pow2(if 2 * s <= h then h - 2 * s else 0) >= Pow2(h - s)
  {
    var m, p := h - s, Pow2(s);
    Pow2Add(m, s);
    var k := if 2 * s <= h then h - 2 * s else 0;
    assert Pow2(m) <= Pow2(k) * p by {
      if 2 * s <= h {
        Pow2Add(k, s);
      } else {
        Pow2Monotone(m, s);
      }
    }
    assert y < Pow2(m) by {
      if y >= Pow2(m) {
        MulMono(Pow2(m), y, p);
        assert false;
      }
    }
    if y + Pow2(k) < Pow2(m) {
      MulMono(y + Pow2(k) + 1, Pow2(m), p);
      assert (y + Pow2(k) + 1) * p == y * p + Pow2(k) * p + p;
      assert false;
    }
  }

  lemma MulMono(a: nat, b: nat, p: nat)
    requires a <= b
    ensures a * p <= b * p
  {
  }

  /** The three shifts inside a byte. */
  lemma SmearByte(x: nat, h: nat)
    requires TopOnes(x, h, 1)
    ensures var a := Or(x, Shr(x, 1)); var b := Or(a, Shr(a, 2)); TopOnes(Or(b, Shr(b, 4)), h, 8)
  {
    var a := Or(x, Shr(x, 1));
    var b := Or(a, Shr(a, 2));
    Smear(x, h, 1);
    Smear(a, h, 2);
    Smear(b, h, 4);
  }

  /** `ceilToPow2`, as it stands: the least power of two for 1 <= x <= 2^63, and 0 everywhere else. */
  method CeilToPow2(size: nat) returns (r: nat)
    requires size < W
    ensures r == if 1 <= size <= TopBit then LeastPow2(size) else 0
  {
    var x := Sub64(size, 1);
    ghost var h := BitLength(x);
    SmearByte(x, h);
    x := Or(x, Shr(x, 1));
    x := Or(x, Shr(x, 2));
    x := Or(x, Shr(x, 4));
    var i := 1;
    while i < 8
      invariant (i == 1 || i == 2 || i == 4 || i == 8) && TopOnes(x, h, 8 * i)
      decreases 8 - i
    {
      Smear(x, h, 8 * i);
      x := Or(x, Shr(x, 8 * i));
      i := 2 * i;
    }
    AllOnes(size, x, h);
    r := Add64(x, 1);
  }

  /** Adding one to the smeared word gives the power of two, or wraps to 0. */
  lemma AllOnes(size: nat, x: nat, h: nat)
    requires size < W && h <= 64 && TopOnes(x, h, 64)
    requires Sub64(size, 1) < Pow2(h) && (h > 0 ==> Pow2(h - 1) <= Sub64(size, 1))
    ensures x < W
    ensures Add64(x, 1) == Ceil64(size)
  {
    Pow2At63();
    Pow2At64();
    Pow2Monotone(h, 64);
    Pow2Monotone(63, 64);
    if 1 <= size <= Pow2(63) {
      BitsBound(size, h);
      RoundUpIs(size, 0, h);
    } else {
      LongWord(Sub64(size, 1), h);
    }
  }

  /** The number of bits of x; a non-zero x has a leading one. */
  ghost function BitLength(x: nat): (h: nat)
    requires x < W
    ensures h <= 64 && x < Pow2(h) && (h > 0 ==> Pow2(h - 1) <= x)
    ensures TopOnes(x, h, 1)
  {
    Pow2At64();
    BitLengthFrom(x, 64)
  }

  ghost function BitLengthFrom(x: nat, k: nat): (h: nat)
    requires x < Pow2(k)
    ensures h <= k && x < Pow2(h) && (h > 0 ==> Pow2(h - 1) <= x)
  {
    if k == 0 || Pow2(k - 1) <= x then k else BitLengthFrom(x, k - 1)
  }

  lemma BitsBound(size: nat, h: nat)
    requires 1 <= size <= Pow2(63) && h <= 64
    requires size - 1 < Pow2(h) && (h > 0 ==> Pow2(h - 1) <= size - 1)
    ensures h <= 63 && size <= Pow2(h) && (0 < h ==> Pow2(h - 1) < size)
    ensures Pow2(h) < W
  {
    if h == 64 {
      assert false;
    }
    Pow2At64();
    Pow2Monotone(h, 63);
    Pow2Monotone(63, 64);
  }

  lemma LongWord(x: nat, h: nat)
    requires Pow2(63) <= x && h <= 64 && x < Pow2(h)
    ensures h == 64
  {
    if h < 64 {
      Pow2Monotone(h, 63);
    }
  }

  // ---------------------------------------------------------------- masks

  /** For a power-of-two block size, `(i + 1) & sizeMask` is the next index round the block. */
  lemma MaskedNext(size: nat, i: nat)
    requires IsPow2(size) && i < size
    ensures And(i + 1, size - 1) == Circular.Next(size, i)
  {
    var k: nat :| size == Pow2(k);
    MaskIsMod(i + 1, k);
    ModSmall(i + 1, size);
  }

  lemma ModSmall(x: nat, n: nat)
    requires n >= 1 && x <= n
    ensures x % n == if x == n then 0 else x
  {
  }

  /** For a power-of-two block size, `(tail - front) & sizeMask` is the walking distance from front to tail. */
  lemma MaskedDist(size: nat, front: nat, tail: nat)
    requires IsPow2(size) && size <= W && front < size && tail < size
    ensures And(Sub64(tail, front), size - 1) == Circular.Dist(size, front, tail)
  {
    var k: nat :| size == Pow2(k);
    MaskIsMod(Sub64(tail, front), k);
    Pow2At64();
    if k > 64 {
      Pow2Monotone(64, k);
      assert false;
    }
    if tail < front {
      WrapDown(tail + W - front, k, tail + size - front);
    } else {
      ModSmall(tail - front, size);
    }
  }

  lemma WrapDown(d: nat, k: nat, e: nat)
    requires k <= 64 && e < Pow2(k) && d + Pow2(k) == W + e
    ensures d % Pow2(k) == e
  {
    Pow2Add(64 - k, k);
    Pow2At64();
    MulPred(Pow2(64 - k), Pow2(k));
    DivModUnique(d, Pow2(k), Pow2(64 - k) - 1, e);
  }
}
