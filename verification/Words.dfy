/** Machine words: 64-bit wrap-around, powers of two, and bitwise operations on naturals. */
module Words {
  /** The number of values of `size_t` and `uint64_t`. */
  const W: nat := 0x1_0000_0000_0000_0000

  /** 2^63, the largest power of two that is a word. */
  const TopBit: nat := 0x8000_0000_0000_0000

  /** Unsigned 64-bit subtraction. */
  function Sub64(a: nat, b: nat): nat
    requires a < W && b < W
  {
    if b <= a then a - b else a + W - b
  }

  /** Unsigned 64-bit addition. */
  function Add64(a: nat, b: nat): nat
    requires a < W && b < W
  {
    if a + b < W then a + b else a + b - W
  }

  function Pow2(k: nat): (p: nat)
    ensures p >= 1
  {
    if k == 0 then 1 else 2 * Pow2(k - 1)
  }

  lemma {:induction false} Pow2Add(a: nat, b: nat)
    ensures Pow2(a + b) == Pow2(a) * Pow2(b)
  {
    if a == 0 {
    } else {
      Pow2Add(a - 1, b);
      calc {
        Pow2(a + b);
        2 * Pow2(a - 1 + b);
        2 * (Pow2(a - 1) * Pow2(b));
        (2 * Pow2(a - 1)) * Pow2(b);
      }
    }
  }

  lemma Pow2At16()
    ensures Pow2(16) == 0x1_0000
  {
    assert Pow2(4) == 0x10;
    Pow2Add(4, 4);
    Pow2Add(8, 8);
  }

  lemma Pow2At64()
    ensures Pow2(64) == W
  {
    Pow2At16();
    Pow2Add(16, 16);
    Pow2Add(32, 32);
  }

  lemma Pow2At63()
    ensures Pow2(63) == TopBit
  {
    Pow2At64();
    assert Pow2(64) == 2 * Pow2(63);
  }

  lemma {:induction false} Pow2Monotone(a: nat, b: nat)
    requires a <= b
    ensures Pow2(a) <= Pow2(b)
    ensures a < b ==> 2 * Pow2(a) <= Pow2(b)
    decreases b
  {
    if a < b {
      Pow2Monotone(a, b - 1);
    }
  }

  /** Bitwise `a & b`. */
  function And(a: nat, b: nat): nat
    decreases a
  {
    if a == 0 || b == 0 then 0
    else 2 * And(a / 2, b / 2) + (if a % 2 == 1 && b % 2 == 1 then 1 else 0)
  }

  /** Bitwise `a | b`. */
  function Or(a: nat, b: nat): nat
    decreases a + b
  {
    if a == 0 then b
    else if b == 0 then a
    else 2 * Or(a / 2, b / 2) + (if a % 2 == 1 || b % 2 == 1 then 1 else 0)
  }

  /** Logical shift right. */
  function Shr(a: nat, s: nat): nat
    decreases s
  {
    if s == 0 then a else Shr(a / 2, s - 1)
  }

  lemma ModDouble(x: nat, p: nat)
    requires p >= 1
    ensures x % (2 * p) == 2 * ((x / 2) % p) + x % 2
  {
    var h := x / 2;
    var q, r := h / p, h % p;
    assert h == q * p + r;
    assert x == 2 * (q * p + r) + x % 2;
    var rem := 2 * r + x % 2;
    assert 0 <= rem < 2 * p;
    assert x == q * (2 * p) + rem by {
      assert 2 * (q * p) == q * (2 * p);
    }
    DivModUnique(x, 2 * p, q, rem);
  }

  lemma DivModUnique(x: nat, d: nat, q: int, r: int)
    requires d >= 1 && x == q * d + r && 0 <= r < d
    ensures x / d == q && x % d == r
  {
    var k := x / d - q;
    assert x == (x / d) * d + x % d;
    assert k * d == r - x % d by {
      assert (x / d - q) * d == (x / d) * d - q * d;
    }
  }

  lemma ModDropMultiple(x: nat, m: nat, p: nat)
    requires p >= 1 && m * p <= x
    ensures (x - m * p) % p == x % p
  {
    var q, r := x / p, x % p;
    assert x - m * p == (q - m) * p + r by {
      assert (q - m) * p == q * p - m * p;
    }
    DivModUnique(x - m * p, p, q - m, r);
  }

  lemma AndOdd(x: nat, p: nat)
    requires p >= 1
    ensures And(x, 2 * p - 1) == 2 * And(x / 2, p - 1) + x % 2
  {
    var mask := 2 * p - 1;
    assert mask / 2 == p - 1 && mask % 2 == 1;
  }

  /** Masking with a power of two less one is reduction modulo that power. */
  lemma {:induction false} MaskIsMod(x: nat, k: nat)
    ensures And(x, Pow2(k) - 1) == x % Pow2(k)
  {
    if k > 0 {
      var p := Pow2(k - 1);
      MaskIsMod(x / 2, k - 1);
      ModDouble(x, p);
      AndOdd(x, p);
    }
  }

  /** A power of two that is not more than 2^64 divides 2^64, so reduction survives 64-bit wrap-around. */
  lemma WrapKeepsMod(x: nat, k: nat)
    requires k <= 64 && x >= W
    ensures (x - W) % Pow2(k) == x % Pow2(k)
  {
    Pow2Add(64 - k, k);
    Pow2At64();
    ModDropMultiple(x, Pow2(64 - k), Pow2(k));
  }
}
