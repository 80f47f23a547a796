/**
 * Positional values: a sequence of w-bit digits read little-endian, and byte
 * strings read little- and big-endian.
 */
module Digits {
  import opened Bits

  /** The number whose w-bit digits, least significant first, are ds. */
  function Value(ds: seq<nat>, w: nat): nat {
    if ds == [] then 0 else ds[0] + Shl(Value(ds[1..], w), w)
  }

  ghost predicate DigitsFit(ds: seq<nat>, w: nat) {
    forall i :: 0 <= i < |ds| ==> ds[i] < Pow2(w)
  }

  lemma {:induction false} ValueAppend(ds: seq<nat>, d: nat, w: nat)
    ensures Value(ds + [d], w) == Value(ds, w) + Shl(d, w * |ds|)
  {
    var all := ds + [d];
    if ds == [] {
      ShlZero(w);
      assert all[1..] == [];
    } else {
      assert all[1..] == ds[1..] + [d];
      ValueAppend(ds[1..], d, w);
      var n := w * (|ds| - 1);
      assert n + w == w * |ds|;
      ShlSum(Value(ds[1..], w), Shl(d, n), w);
      ShlShl(d, n, w);
    }
  }

  lemma {:induction false} ValueBound(ds: seq<nat>, w: nat)
    requires DigitsFit(ds, w)
    ensures Value(ds, w) < Pow2(w * |ds|)
  {
    if ds != [] {
      ValueBound(ds[1..], w);
      var n := w * (|ds| - 1);
      assert n + w == w * |ds|;
      ShlBound(Value(ds[1..], w), ds[0], n, w);
    }
  }

  /** Shifting right by whole digits and masking reads digit i back. */
  lemma {:induction false} DigitAt(ds: seq<nat>, w: nat, i: nat)
    requires i < |ds| && DigitsFit(ds, w)
    ensures Low(Shr(Value(ds, w), w * i), w) == ds[i]
  {
    JoinBits(ds[0], Value(ds[1..], w), w);
    if i == 0 {
      assert Shr(Value(ds, w), 0) == Value(ds, w);
    } else {
      DigitAt(ds[1..], w, i - 1);
      var n := w * (i - 1);
      assert w + n == w * i;
      ShrShr(Value(ds, w), w, n);
    }
  }

  // ---- Prefixes -----------------------------------------------------------

  lemma TakeNext<T>(s: seq<T>, k: nat)
    requires k < |s|
    ensures s[..k + 1] == s[..k] + [s[k]]
  {
  }

  lemma TakeAll<T>(s: seq<T>)
    ensures s[..|s|] == s
  {
  }

  // ---- Bytes --------------------------------------------------------------

  function LittleEndian(bs: seq<byte>): nat {
    Value(bs, 8)
  }

  /** The n low bytes of v, least significant first. */
  function LittleBytes(v: nat, n: nat): (bs: seq<byte>)
    ensures |bs| == n
  {
    if n == 0 then [] else [v % 256] + LittleBytes(v / 256, n - 1)
  }

  lemma BytesFit(bs: seq<byte>)
    ensures DigitsFit(bs, 8)
  {
    Pow2Small();
  }

  lemma {:induction false} LittleBytesOf(bs: seq<byte>)
    ensures LittleBytes(LittleEndian(bs), |bs|) == bs
  {
    if bs != [] {
      LittleBytesOf(bs[1..]);
      Pow2Small();
      JoinBits(bs[0], LittleEndian(bs[1..]), 8);
      LowSmall(LittleEndian(bs));
    }
  }

  lemma {:induction false} LittleEndianOf(v: nat, n: nat)
    requires v < Pow2(8 * n)
    ensures LittleEndian(LittleBytes(v, n)) == v
  {
    if n > 0 {
      LowSmall(v);
      ShrBound(v, 8 * (n - 1), 8);
      LittleEndianOf(v / 256, n - 1);
      var bs := LittleBytes(v, n);
      assert bs[1..] == LittleBytes(v / 256, n - 1);
      SplitBits(v, 8);
    }
  }

  function BigEndian(bs: seq<byte>): nat {
    if bs == [] then 0 else BigEndian(bs[..|bs| - 1]) * 256 + bs[|bs| - 1]
  }

  /** The n low bytes of v, most significant first: int.to_bytes, struct.pack("!..."). */
  function BigBytes(v: nat, n: nat): (bs: seq<byte>)
    ensures |bs| == n
  {
    if n == 0 then [] else BigBytes(v / 256, n - 1) + [v % 256]
  }

  lemma {:induction false} BigEndianOf(v: nat, n: nat)
    requires v < Pow2(8 * n)
    ensures BigEndian(BigBytes(v, n)) == v
  {
    if n > 0 {
      LowSmall(v);
      ShrBound(v, 8 * (n - 1), 8);
      BigEndianOf(v / 256, n - 1);
      var bs := BigBytes(v, n);
      assert bs[..|bs| - 1] == BigBytes(v / 256, n - 1);
    }
  }

  lemma {:induction false} BigEndianBound(bs: seq<byte>)
    ensures BigEndian(bs) < Pow2(8 * |bs|)
  {
    if bs != [] {
      BigEndianBound(bs[..|bs| - 1]);
      var n := 8 * (|bs| - 1);
      assert Pow2(n + 8) == 256 * Pow2(n) by {
        Pow2Add(n, 8);
        Pow2Small();
      }
    }
  }

  /** Two octets of a number, and the last of any */
  lemma Low16(v: nat)
    ensures BigEndian(BigBytes(v, 2)) == v % 0x1_0000
  {
    var n := 2;
    LastOctet(v, n);
    assert v % 256 + 256 * (v / 256 % 256) == v % 0x1_0000;
  }

  lemma LastOctet(v: nat, n: nat)
    requires n >= 1
    ensures BigEndian(BigBytes(v, n)) == BigEndian(BigBytes(v / 256, n - 1)) * 256 + v % 256
  {
    var bs := BigBytes(v, n);
    assert bs[..n - 1] == BigBytes(v / 256, n - 1);
  }

  lemma TwoOctetsHold(v: nat)
    requires v < 0x1_0000
    ensures BigEndian(BigBytes(v, 2)) == v
  {
    hide BigBytes, BigEndian;
    Low16(v);
  }
}
