/**
 * Natural numbers read as bit strings: the masks, shifts, OR and XOR that the
 * Python and C sources use, defined bit by bit, and what they mean as arithmetic.
 */
module Bits {
  type byte = x: int | 0 <= x < 256

  function Pow2(n: nat): (p: nat)
    ensures p >= 1
  {
    if n == 0 then 1 else 2 * Pow2(n - 1)
  }

  function Shl(a: nat, n: nat): nat {
    if n == 0 then a else 2 * Shl(a, n - 1)
  }

  function Shr(a: nat, n: nat): nat {
    if n == 0 then a else Shr(a / 2, n - 1)
  }

  /** The n low bits of a. */
  function Low(a: nat, n: nat): nat {
    if n == 0 then 0 else 2 * Low(a / 2, n - 1) + a % 2
  }

  function And(a: nat, b: nat): nat {
    if a == 0 || b == 0 then 0
    else 2 * And(a / 2, b / 2) + (if a % 2 == 1 && b % 2 == 1 then 1 else 0)
  }

  function Or(a: nat, b: nat): nat
    decreases a + b
  {
    if a == 0 then b
    else if b == 0 then a
    else 2 * Or(a / 2, b / 2) + (if a % 2 == 1 || b % 2 == 1 then 1 else 0)
  }

  function Xor(a: nat, b: nat): nat
    decreases a + b
  {
    if a == 0 then b
    else if b == 0 then a
    else 2 * Xor(a / 2, b / 2) + (if a % 2 != b % 2 then 1 else 0)
  }

  /** Bit k of n, counting from the least significant. */
  predicate Bit(n: nat, k: nat) {
    if k == 0 then n % 2 == 1 else Bit(n / 2, k - 1)
  }

  // ---- Powers of two ------------------------------------------------------

  lemma {:induction false} Pow2Add(a: nat, b: nat)
    ensures Pow2(a + b) == Pow2(a) * Pow2(b)
  {
    if a > 0 {
      Pow2Add(a - 1, b);
      assert Pow2(a + b) == 2 * Pow2(a - 1 + b);
    }
  }

  lemma {:induction false} Pow2Monotone(a: nat, b: nat)
    requires a <= b
    ensures Pow2(a) <= Pow2(b)
  {
    if a < b {
      Pow2Monotone(a, b - 1);
    }
  }

  lemma Pow2Small()
    ensures Pow2(0) == 1 && Pow2(1) == 2 && Pow2(2) == 4 && Pow2(3) == 8 && Pow2(4) == 16
    ensures Pow2(5) == 32 && Pow2(6) == 64 && Pow2(7) == 128 && Pow2(8) == 256
  {
    assert Pow2(4) == 16;
  }

  lemma Pow2Large()
    ensures Pow2(15) == 0x8000 && Pow2(16) == 0x1_0000 && Pow2(24) == 0x100_0000
    ensures Pow2(32) == 0x1_0000_0000 && Pow2(48) == 0x1_0000_0000_0000
  {
    Pow2Small();
    Pow2Add(8, 8);
    Pow2Add(8, 7);
    Pow2Add(8, 16);
    Pow2Add(16, 16);
    Pow2Add(16, 32);
  }

  // ---- Shifts -------------------------------------------------------------

  lemma {:induction false} ShlSum(a: nat, b: nat, n: nat)
    ensures Shl(a + b, n) == Shl(a, n) + Shl(b, n)
  {
    if n > 0 {
      ShlSum(a, b, n - 1);
    }
  }

  lemma {:induction false} ShlShl(a: nat, m: nat, n: nat)
    ensures Shl(Shl(a, m), n) == Shl(a, m + n)
  {
    if n > 0 {
      ShlShl(a, m, n - 1);
    }
  }

  lemma {:induction false} ShlZero(n: nat)
    ensures Shl(0, n) == 0
  {
    if n > 0 {
      ShlZero(n - 1);
    }
  }

  /** n low bits joined to m high bits make an (m+n)-bit number. */
  lemma {:induction false} ShlBound(a: nat, low: nat, m: nat, n: nat)
    requires a < Pow2(m) && low < Pow2(n)
    ensures low + Shl(a, n) < Pow2(m + n)
  {
    if n > 0 {
      ShlBound(a, low / 2, m, n - 1);
    }
  }

  lemma {:induction false} ShrShr(a: nat, m: nat, n: nat)
    ensures Shr(Shr(a, m), n) == Shr(a, m + n)
  {
    if m > 0 {
      ShrShr(a / 2, m - 1, n);
    }
  }

  /** Every number is its n low bits below its other bits. */
  lemma {:induction false} SplitBits(a: nat, n: nat)
    ensures a == Low(a, n) + Shl(Shr(a, n), n)
    ensures Low(a, n) < Pow2(n)
  {
    if n > 0 {
      SplitBits(a / 2, n - 1);
    }
  }

  lemma {:induction false} ShrBound(a: nat, m: nat, n: nat)
    requires a < Pow2(m + n)
    ensures Shr(a, n) < Pow2(m)
  {
    if n > 0 {
      ShrBound(a / 2, m, n - 1);
    }
  }

  /** Low bits and high bits put together come apart again. */
  lemma {:induction false} JoinBits(low: nat, high: nat, n: nat)
    requires low < Pow2(n)
    ensures Low(low + Shl(high, n), n) == low
    ensures Shr(low + Shl(high, n), n) == high
  {
    if n > 0 {
      JoinBits(low / 2, high, n - 1);
      var x := low + Shl(high, n);
      assert x / 2 == low / 2 + Shl(high, n - 1);
      assert x % 2 == low % 2;
    }
  }

  lemma LowSmall(a: nat)
    ensures Low(a, 7) == a % 128
    ensures Low(a, 8) == a % 256
    ensures Shr(a, 8) == a / 256
  {
    LowSeptet(a, 7);
    LowOctet(a, 8);
  }

  lemma LowSeptet(a: nat, n: nat)
    requires n == 7
    ensures Low(a, n) == a % 128
  {
    Pow2Small();
    SplitBits(a, n);
    ShlSmall(Shr(a, n));
  }

  lemma LowOctet(a: nat, n: nat)
    requires n == 8
    ensures Low(a, n) == a % 256 && Shr(a, n) == a / 256
  {
    Pow2Small();
    SplitBits(a, n);
    ShlSmall(Shr(a, n));
  }

  lemma LowPair(a: nat, n: nat)
    requires n == 2
    ensures Low(a, n) == a % 4
  {
    Pow2Small();
    SplitBits(a, n);
    ShlSmall(Shr(a, n));
  }

  lemma LowNibble(a: nat, n: nat)
    requires n == 4
    ensures Low(a, n) == a % 16 && Shr(a, n) == a / 16
  {
    Pow2Small();
    SplitBits(a, n);
    ShlSmall(Shr(a, n));
  }

  lemma LowTriple(a: nat, n: nat)
    requires n == 3
    ensures Low(a, n) == a % 8
  {
    Pow2Small();
    SplitBits(a, n);
    ShlSmall(Shr(a, n));
  }

  lemma ShlSmall(x: nat)
    ensures Shl(x, 2) == 4 * x && Shl(x, 3) == 8 * x && Shl(x, 4) == 16 * x && Shl(x, 7) == 128 * x && Shl(x, 8) == 256 * x
  {
    assert Shl(x, 1) == 2 * x;
    assert Shl(x, 3) == 8 * x;
    assert Shl(x, 5) == 32 * x;
  }

  // ---- Masks and disjoint ORs ---------------------------------------------

  lemma {:induction false} AndMask(a: nat, k: nat)
    ensures And(a, Pow2(k) - 1) == Low(a, k)
  {
    if k > 0 {
      AndMask(a / 2, k - 1);
      if a == 0 {
        LowZero(k);
      } else {
        assert (Pow2(k) - 1) / 2 == Pow2(k - 1) - 1;
        assert (Pow2(k) - 1) % 2 == 1;
      }
    }
  }

  lemma {:induction false} LowZero(k: nat)
    ensures Low(0, k) == 0
  {
    if k > 0 {
      LowZero(k - 1);
    }
  }

  /** ORing in a value shifted clear of `a` adds it. */
  lemma {:induction false} OrDisjoint(a: nat, b: nat, k: nat)
    requires a < Pow2(k)
    ensures Or(a, Shl(b, k)) == a + Shl(b, k)
  {
    if k > 0 && a != 0 && Shl(b, k) != 0 {
      OrDisjoint(a / 2, b, k - 1);
    }
  }

  lemma {:induction false} OrShl(a: nat, b: nat, n: nat)
    ensures Or(Shl(a, n), Shl(b, n)) == Shl(Or(a, b), n)
  {
    if n > 0 {
      OrShl(a, b, n - 1);
    }
  }

  /** A single low bit ORed under an even number adds to it. */
  lemma OrLowBit(a: nat, b: nat)
    requires b < 2
    ensures Or(2 * a, b) == 2 * a + b
  {
    OrDisjoint(b, a, 1);
    OrCommutes(2 * a, b);
    assert Shl(a, 1) == 2 * a;
  }

  lemma {:induction false} OrCommutes(a: nat, b: nat)
    ensures Or(a, b) == Or(b, a)
    decreases a + b
  {
    if a != 0 && b != 0 {
      OrCommutes(a / 2, b / 2);
    }
  }

  lemma {:induction false} BitOr(a: nat, b: nat, k: nat)
    ensures Bit(Or(a, b), k) <==> Bit(a, k) || Bit(b, k)
  {
    if a == 0 || b == 0 {
      BitZero(k);
    } else if k > 0 {
      BitOr(a / 2, b / 2, k - 1);
      assert Or(a, b) / 2 == Or(a / 2, b / 2);
    }
  }

  lemma {:induction false} OrBound(a: nat, b: nat, n: nat)
    requires a < Pow2(n) && b < Pow2(n)
    ensures Or(a, b) < Pow2(n)
  {
    if a != 0 && b != 0 {
      OrBound(a / 2, b / 2, n - 1);
    }
  }

  lemma {:induction false} BitShr(n: nat, m: nat, k: nat)
    ensures Bit(Shr(n, m), k) <==> Bit(n, m + k)
  {
    if m > 0 {
      BitShr(n / 2, m - 1, k);
    }
  }

  lemma {:induction false} BitPow2(j: nat, k: nat)
    ensures Bit(Pow2(j), k) <==> j == k
  {
    if j == 0 {
      if k > 0 {
        BitZero(k - 1);
      }
    } else if k > 0 {
      BitPow2(j - 1, k - 1);
    }
  }

  lemma {:induction false} BitZero(k: nat)
    ensures !Bit(0, k)
  {
    if k > 0 {
      BitZero(k - 1);
    }
  }

  /** Testing one bit with a mask, `n & (1 << k)`. */
  lemma {:induction false} AndBit(n: nat, k: nat)
    ensures And(n, Pow2(k)) != 0 <==> Bit(n, k)
  {
    if n == 0 {
      BitZero(k);
    } else if k == 0 {
      assert And(n / 2, 0) == 0;
    } else {
      AndBit(n / 2, k - 1);
      assert Pow2(k) / 2 == Pow2(k - 1) && Pow2(k) % 2 == 0;
    }
  }

  // ---- XOR ----------------------------------------------------------------

  lemma {:induction false} XorBound(a: nat, b: nat, k: nat)
    requires a < Pow2(k) && b < Pow2(k)
    ensures Xor(a, b) < Pow2(k)
  {
    if k > 0 && a > 0 && b > 0 {
      XorBound(a / 2, b / 2, k - 1);
    }
  }

  lemma {:induction false} XorCancel(a: nat, b: nat)
    ensures Xor(Xor(a, b), b) == a
    decreases a + b
  {
    if a == 0 {
      XorSelf(b);
    } else if b != 0 {
      XorCancel(a / 2, b / 2);
      var x := Xor(a, b);
      assert x / 2 == Xor(a / 2, b / 2);
      assert x % 2 == (if a % 2 != b % 2 then 1 else 0);
    }
  }

  lemma {:induction false} XorSelf(b: nat)
    ensures Xor(b, b) == 0
  {
    if b > 0 {
      XorSelf(b / 2);
    }
  }
}
