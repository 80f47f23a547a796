/**
 * Milenage's rotation of a block, byte by byte, and what it is: rotation of the
 * block as one string of bits, most significant first.
 */
module Rotation {
  import opened Bits
  import opened Digits

  // ---- The loop -----------------------------------------------------------

  /** Python's `x % n`, for a positive n */
  function Mod(x: int, n: nat): (r: nat)
    requires n > 0
    ensures r < n
  {
    x % n
  }

  /** Byte i of a block rotated left by whole bytes and then by a few bits. */
  function RotatedByte(data: seq<byte>, byteShift: int, bitShift: nat, i: nat): byte
    requires i < |data| && bitShift < 8
  {
    var n := |data|;
    And8(Or(Shl(data[Mod(i + byteShift, n)], bitShift), Shr(data[Mod(i + byteShift + 1, n)], 8 - bitShift)))
  }

  /** `x & 0xFF` */
  function And8(x: nat): (b: byte)
    ensures b == And(x, 255) == x % 256
  {
    Masked(x);
    x % 256
  }

  lemma Masked(x: nat)
    ensures And(x, 255) == x % 256
  {
    var k := 8;
    AndMask(x, k);
    Pow2Small();
    LowOctet(x, k);
  }

  function Rotated(data: seq<byte>, bits: int): (r: seq<byte>)
    ensures |r| == |data|
  {
    if bits == 0 then data
    else seq(|data|, i requires 0 <= i < |data| => RotatedByte(data, bits / 8, bits % 8, i))
  }

  method Rotate(data: seq<byte>, bits: int) returns (r: seq<byte>)
    ensures r == Rotated(data, bits)
  {
    if bits == 0 {
      return data;
    }
    var byteShift, bitShift, n := bits / 8, bits % 8, |data|;
    var result := new byte[n];
    for i := 0 to n
      invariant forall k :: 0 <= k < i ==> result[k] == RotatedByte(data, byteShift, bitShift, k)
    {
      var src1, src2: nat := Mod(i + byteShift, n), Mod(i + byteShift + 1, n);
      result[i] := And8(Or(Shl(data[src1], bitShift), Shr(data[src2], 8 - bitShift)));
    }
    r := result[..];
  }

  // ---- Blocks as bit strings ----------------------------------------------

  /** Bit j of a block, counting from the most significant bit of its first byte. */
  predicate BitAt(data: seq<byte>, j: nat)
    requires j < 8 * |data|
  {
    Bit(data[j / 8], 7 - j % 8)
  }

  function BitString(data: seq<byte>): (s: seq<bool>)
    ensures |s| == 8 * |data|
    ensures forall j :: 0 <= j < |s| ==> (s[j] <==> BitAt(data, j))
  {
    seq(8 * |data|, j requires 0 <= j < 8 * |data| => BitAt(data, j))
  }

  lemma {:induction false} BitShl(a: nat, n: nat, k: nat)
    ensures Bit(Shl(a, n), k) <==> k >= n && Bit(a, k - n)
  {
    if n > 0 && k > 0 {
      BitShl(a, n - 1, k - 1);
      assert Shl(a, n) / 2 == Shl(a, n - 1);
    } else if n > 0 {
      assert Shl(a, n) % 2 == 0;
    }
  }

  lemma {:induction false} BitLow(a: nat, n: nat, k: nat)
    ensures Bit(Low(a, n), k) <==> k < n && Bit(a, k)
  {
    if n == 0 {
      BitZero(k);
    } else if k > 0 {
      BitLow(a / 2, n - 1, k - 1);
      assert Low(a, n) / 2 == Low(a / 2, n - 1);
    } else {
      assert Low(a, n) % 2 == a % 2;
    }
  }

  lemma {:induction false} BitBeyond(a: nat, n: nat, k: nat)
    requires a < Pow2(n) && n <= k
    ensures !Bit(a, k)
  {
    if n == 0 {
      BitZero(k);
    } else {
      BitBeyond(a / 2, n - 1, k - 1);
    }
  }

  lemma {:induction false} SameBits(a: nat, b: nat, n: nat)
    requires a < Pow2(n) && b < Pow2(n)
    requires forall k :: 0 <= k < n ==> (Bit(a, k) <==> Bit(b, k))
    ensures a == b
  {
    if n > 0 {
      forall k | 0 <= k < n - 1
        ensures Bit(a / 2, k) <==> Bit(b / 2, k)
      {
        assert Bit(a, k + 1) <==> Bit(b, k + 1);
      }
      SameBits(a / 2, b / 2, n - 1);
      assert Bit(a, 0) <==> Bit(b, 0);
    }
  }

  /** A block is its bit string. */
  lemma SameString(a: seq<byte>, b: seq<byte>)
    requires |a| == |b| && BitString(a) == BitString(b)
    ensures a == b
  {
    forall i | 0 <= i < |a|
      ensures a[i] == b[i]
    {
      forall k | 0 <= k < 8
        ensures Bit(a[i], k) <==> Bit(b[i], k)
      {
        var j := 8 * i + (7 - k);
        assert j / 8 == i && j % 8 == 7 - k;
        assert BitString(a)[j] <==> BitString(b)[j];
      }
      Pow2Small();
      SameBits(a[i], b[i], 8);
    }
  }

  // ---- Rotation bit by bit ------------------------------------------------

  lemma OnlyZero(n: int, d: int)
    requires 0 - n < n * d < n
    ensures d == 0
  {
    if d >= 1 {
      AtLeastOne(n, d);
    } else if d <= -1 {
      AtLeastOne(n, -d);
    }
  }

  lemma AtLeastOne(n: int, d: int)
    requires n >= 0 && d >= 1
    ensures n * d >= n
  {
  }

  lemma Quotient(x: int, n: nat, q: int, r: nat)
    requires n > 0 && r < n && x == n * q + r
    ensures x / n == q && x % n == r
  {
    var d := x / n - q;
    assert n * d == r - x % n;
    OnlyZero(n, d);
  }

  /** Eight bits a byte: reduction modulo 8n is reduction of the byte's place modulo n. */
  lemma EightTimes(q: int, r: nat, n: nat)
    requires n > 0 && r < 8
    ensures Mod(8 * q + r, 8 * n) == 8 * Mod(q, n) + r
  {
    var k, p := q / n, q % n;
    assert q == n * k + p;
    assert 8 * q + r == (8 * n) * k + (8 * p + r);
    Quotient(8 * q + r, 8 * n, k, 8 * p + r);
  }

  lemma RotatedBit(data: seq<byte>, byteShift: int, bitShift: nat, i: nat, p: nat)
    requires i < |data| && bitShift < 8 && p < 8
    ensures var n := |data|;
            Bit(RotatedByte(data, byteShift, bitShift, i), 7 - p)
            <==> if p + bitShift < 8 then Bit(data[Mod(i + byteShift, n)], 7 - (p + bitShift))
                 else Bit(data[Mod(i + byteShift + 1, n)], 15 - (p + bitShift))
  {
    var n, k, w := |data|, 7 - p, 8;
    var x: nat, y: nat := data[Mod(i + byteShift, n)], data[Mod(i + byteShift + 1, n)];
    LowOctet(Or(Shl(x, bitShift), Shr(y, 8 - bitShift)), w);
    BitLow(Or(Shl(x, bitShift), Shr(y, 8 - bitShift)), w, k);
    BitOr(Shl(x, bitShift), Shr(y, 8 - bitShift), k);
    BitShl(x, bitShift, k);
    BitShr(y, 8 - bitShift, k);
    Pow2Small();
    if p + bitShift < 8 {
      BitBeyond(y, w, 8 - bitShift + k);
    }
  }

  /** Bit j of the rotated block is bit j + bits, modulo the length, of the block. */
  lemma RotatedBitAt(data: seq<byte>, bits: int, j: nat)
    requires j < 8 * |data|
    ensures BitAt(Rotated(data, bits), j) <==> BitAt(data, Mod(j + bits, 8 * |data|))
  {
    hide RotatedByte, Mod;
    var n := |data|;
    var i, p := j / 8, j % 8;
    if bits == 0 {
      SmallMod(j, 8 * n);
    } else {
      var b, t := bits / 8, bits % 8;
      assert j + bits == 8 * (i + b) + (p + t);
      RotatedBit(data, b, t, i, p);
      if p + t < 8 {
        EightTimes(i + b, p + t, n);
        ByteOf(data, Mod(j + bits, 8 * n), Mod(i + b, n), p + t);
      } else {
        EightTimes(i + b + 1, p + t - 8, n);
        ByteOf(data, Mod(j + bits, 8 * n), Mod(i + b + 1, n), p + t - 8);
      }
    }
  }

  lemma SmallMod(j: nat, n: nat)
    requires j < n
    ensures Mod(j, n) == j
  {
    Quotient(j, n, 0, j);
  }

  lemma ByteOf(data: seq<byte>, j: nat, i: nat, p: nat)
    requires i < |data| && p < 8 && j == 8 * i + p
    ensures BitAt(data, j) <==> Bit(data[i], 7 - p)
  {
  }

  /** Rotating a non-empty block by any amount rotates its bit string, by that amount modulo its length. */
  lemma RotateIsRotation(data: seq<byte>, bits: int)
    requires data != []
    ensures var s, k := BitString(data), Mod(bits, 8 * |data|);
            BitString(Rotated(data, bits)) == s[k..] + s[..k]
  {
    hide Mod, Rotated, BitAt;
    var s, n := BitString(data), 8 * |data|;
    var k, r := Mod(bits, n), BitString(Rotated(data, bits));
    forall j | 0 <= j < n
      ensures r[j] == (s[k..] + s[..k])[j]
    {
      RotatedBitAt(data, bits, j);
      WrapOnce(j, bits, n);
    }
  }

  lemma WrapOnce(j: nat, bits: int, n: nat)
    requires j < n
    ensures Mod(j + bits, n) == if j + Mod(bits, n) < n then j + Mod(bits, n) else j + Mod(bits, n) - n
  {
    var q, k := bits / n, bits % n;
    assert bits == n * q + k;
    if j + k < n {
      Quotient(j + bits, n, q, j + k);
    } else {
      assert j + bits == n * (q + 1) + (j + k - n);
      Quotient(j + bits, n, q + 1, j + k - n);
    }
  }

  lemma ModAdd(j: int, a: int, b: int, n: nat)
    requires n > 0
    ensures Mod(Mod(j + b, n) + a, n) == Mod(j + a + b, n)
  {
    var q := (j + b) / n;
    var m := (j + b) % n + a;
    assert m == n * (m / n) + m % n;
    assert j + a + b == n * (q + m / n) + m % n;
    Quotient(j + a + b, n, q + m / n, m % n);
  }

  /** Rotations add. */
  lemma RotationsAdd(data: seq<byte>, a: int, b: int)
    ensures Rotated(Rotated(data, a), b) == Rotated(data, a + b)
  {
    hide Mod, Rotated, BitAt;
    var twice, once := Rotated(Rotated(data, a), b), Rotated(data, a + b);
    var n := 8 * |data|;
    forall j | 0 <= j < n
      ensures BitString(twice)[j] == BitString(once)[j]
    {
      RotatedBitAt(Rotated(data, a), b, j);
      RotatedBitAt(data, a, Mod(j + b, n));
      ModAdd(j, a, b, n);
      RotatedBitAt(data, a + b, j);
    }
    SameString(twice, once);
  }

  // ---- Rotation as a number -----------------------------------------------

  function BitValue(s: seq<bool>): nat {
    if s == [] then 0 else 2 * BitValue(s[..|s| - 1]) + (if s[|s| - 1] then 1 else 0)
  }

  lemma {:induction false} BitValueJoin(a: seq<bool>, b: seq<bool>)
    ensures BitValue(a + b) == Shl(BitValue(a), |b|) + BitValue(b)
    ensures BitValue(b) < Pow2(|b|)
  {
    if b == [] {
      assert a + b == a;
    } else {
      var front := b[..|b| - 1];
      BitValueJoin(a, front);
      assert (a + b)[..|a + b| - 1] == a + front;
    }
  }

  lemma {:induction false} BitsOfByte(x: nat, n: nat, s: seq<bool>)
    requires x < Pow2(n) && |s| == n
    requires forall j :: 0 <= j < n ==> (s[j] <==> Bit(x, n - 1 - j))
    ensures BitValue(s) == x
  {
    if n > 0 {
      assert s[n - 1] <==> Bit(x, 0);
      forall j | 0 <= j < n - 1
        ensures s[j] <==> Bit(x / 2, n - 2 - j)
      {
        assert s[j] <==> Bit(x, n - 1 - j);
      }
      BitsOfByte(x / 2, n - 1, s[..n - 1]);
    }
  }

  lemma {:induction false} BigEndianBits(data: seq<byte>)
    ensures BigEndian(data) == BitValue(BitString(data))
  {
    if data != [] {
      var front, last, w := data[..|data| - 1], data[|data| - 1], 8;
      BigEndianBits(front);
      var s := BitString(data);
      var head, tail := s[..8 * |front|], s[8 * |front|..];
      assert head == BitString(front);
      forall j | 0 <= j < w
        ensures tail[j] <==> Bit(last, w - 1 - j)
      {
        assert (8 * |front| + j) / 8 == |front|;
      }
      Pow2Small();
      BitsOfByte(last, w, tail);
      BitValueJoin(head, tail);
      assert s == head + tail;
      ShlSmall(BitValue(head));
    }
  }

  /**
   * Read big-endian, rotating by k bits, 0 <= k < 8n, moves the top k bits of the
   * number below the rest.
   */
  lemma RotatedValue(data: seq<byte>, bits: int)
    requires data != []
    ensures var v, k := BigEndian(data), Mod(bits, 8 * |data|);
            BigEndian(Rotated(data, bits)) == Shl(Low(v, 8 * |data| - k), k) + Shr(v, 8 * |data| - k)
  {
    hide Mod, Rotated, BitString, BitValue, BigEndian;
    var s, n := BitString(data), 8 * |data|;
    var k := Mod(bits, n);
    RotateIsRotation(data, bits);
    BigEndianBits(data);
    BigEndianBits(Rotated(data, bits));
    assert s == s[..k] + s[k..];
    ExchangedValue(s[..k], s[k..]);
  }

  lemma ExchangedValue(top: seq<bool>, rest: seq<bool>)
    ensures var v := BitValue(top + rest);
            BitValue(rest + top) == Shl(Low(v, |rest|), |top|) + Shr(v, |rest|)
  {
    hide BitValue, Low, Shr, Shl;
    BitValueJoin(top, rest);
    BitValueJoin(rest, top);
    JoinBits(BitValue(rest), BitValue(top), |rest|);
  }
}
