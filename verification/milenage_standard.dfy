/**
 * Milenage as section 4.1 of 3GPP TS 35.206 writes it, over strings of 128 bits, and
 * that the byte-wise code computes it.
 */
module MilenageStandard {
  import opened Bits
  import opened Milenage
  import opened Rotation

  function XorBits(a: seq<bool>, b: seq<bool>): (c: seq<bool>)
    requires |a| == |b|
    ensures |c| == |a| && forall i :: 0 <= i < |a| ==> c[i] == (a[i] != b[i])
  {
    seq(|a|, i requires 0 <= i < |a| => a[i] != b[i])
  }

  /** rot(x, r): cyclic rotation by r bits towards the most significant bit */
  function Rot(x: seq<bool>, r: nat): seq<bool>
    requires r <= |x|
  {
    x[r..] + x[..r]
  }

  /** A constant with one bit set, or none */
  function OneBit(k: nat): (c: seq<bool>)
    ensures |c| == 128 && forall j :: 0 <= j < 128 ==> (c[j] <==> j == k)
  {
    seq(128, j => j == k)
  }

  const NoBit: nat := 128

  /** TEMP = E[RAND + OPC] */
  ghost predicate IsTemp(e: Block -> Block, opc: Block, rand: Block, temp: Block) {
    exists x: Block :: BitString(x) == XorBits(BitString(rand), BitString(opc)) && temp == e(x)
  }

  /** OUT = E[rot(TEMP + OPC, r) + c] + OPC */
  ghost predicate IsOut(e: Block -> Block, opc: Block, temp: Block, r: nat, k: nat, out: Block)
    requires r <= 128
  {
    exists x: Block ::
      && BitString(x) == XorBits(Rot(XorBits(BitString(temp), BitString(opc)), r), OneBit(k))
      && BitString(out) == XorBits(BitString(e(x)), BitString(opc))
  }

  /** OUT1 = E[TEMP + rot(IN1 + OPC, r1) + c1] + OPC, with IN1 = SQN || AMF || SQN || AMF */
  ghost predicate IsOut1(e: Block -> Block, opc: Block, temp: Block, sqn: seq<byte>, amf: seq<byte>, out: Block)
    requires |sqn| == 6 && |amf| == 2
  {
    exists x: Block ::
      var in1 := BitString(sqn) + BitString(amf) + BitString(sqn) + BitString(amf);
      && BitString(x) == XorBits(XorBits(BitString(temp), Rot(XorBits(in1, BitString(opc)), 64)), OneBit(NoBit))
      && BitString(out) == XorBits(BitString(e(x)), BitString(opc))
  }

  // ---- Bytes and bits -----------------------------------------------------

  lemma {:induction false} BitXor(a: nat, b: nat, k: nat)
    ensures Bit(Xor(a, b), k) <==> Bit(a, k) != Bit(b, k)
  {
    if a == 0 || b == 0 {
      BitZero(k);
    } else if k > 0 {
      BitXor(a / 2, b / 2, k - 1);
      assert Xor(a, b) / 2 == Xor(a / 2, b / 2);
    }
  }

  lemma XorString(a: seq<byte>, b: seq<byte>)
    requires |a| == |b|
    ensures BitString(XorBytes(a, b)) == XorBits(BitString(a), BitString(b))
  {
    forall j | 0 <= j < 8 * |a|
      ensures BitString(XorBytes(a, b))[j] == XorBits(BitString(a), BitString(b))[j]
    {
      BitXor(a[j / 8], b[j / 8], 7 - j % 8);
    }
  }

  lemma JoinString(a: seq<byte>, b: seq<byte>)
    ensures BitString(a + b) == BitString(a) + BitString(b)
  {
    forall j | 0 <= j < 8 * |a + b|
      ensures BitString(a + b)[j] == (BitString(a) + BitString(b))[j]
    {
      if j >= 8 * |a| {
        assert (j - 8 * |a|) / 8 == j / 8 - |a| && (j - 8 * |a|) % 8 == j % 8;
      }
    }
  }

  lemma SliceString(a: seq<byte>, i: nat, j: nat)
    requires i <= j <= |a|
    ensures BitString(a[i..j]) == BitString(a)[8 * i..8 * j]
  {
    assert a == a[..i] + a[i..j] + a[j..];
    JoinString(a[..i] + a[i..j], a[j..]);
    JoinString(a[..i], a[i..j]);
  }

  /** The constants c1 to c5: bit 127 - m for a last octet 2^m, none for 0. */
  lemma ConstantString(m: nat)
    requires m < 8
    ensures Pow2(m) < 256 && BitString(Constant(Pow2(m))) == OneBit(127 - m)
    ensures BitString(Constant(0)) == OneBit(NoBit)
  {
    Pow2Small();
    Pow2Monotone(m, 7);
    forall j | 0 <= j < 128
      ensures BitString(Constant(Pow2(m)))[j] <==> j == 127 - m
      ensures !BitString(Constant(0))[j]
    {
      BitZero(7 - j % 8);
      BitPow2(m, 7 - j % 8);
    }
  }

  lemma RotString(a: Block, r: nat)
    requires r < 128
    ensures BitString(Rotated(a, r)) == Rot(BitString(a), r)
  {
    SmallMod(r, 128);
    RotateIsRotation(a, r);
  }

  /** OPc = E[OP] + OP */
  lemma OpcIsStandard(e: Block -> Block, op: Block)
    ensures BitString(ComputeOpc(e, op)) == XorBits(BitString(e(op)), BitString(op))
  {
    hide BitString, XorBytes;
    XorString(op, e(op));
  }

  // ---- The code computes the standard's functions -------------------------

  lemma OutIsStandard(e: Block -> Block, opc: Block, rand: Block, r: nat, m: nat)
    requires r < 128 && m < 8
    ensures Pow2(m) < 256 && IsOut(e, opc, Temp(e, opc, rand), r, 127 - m, Out(e, opc, rand, r, Pow2(m)))
  {
    hide BitString, XorBytes, Rotated, Constant, Temp;
    ConstantString(m);
    var temp := Temp(e, opc, rand);
    var x: Block := XorBytes(Rotated(XorBytes(temp, opc), r), Constant(Pow2(m)));
    XorString(temp, opc);
    RotString(XorBytes(temp, opc), r);
    XorString(Rotated(XorBytes(temp, opc), r), Constant(Pow2(m)));
    XorString(e(x), opc);
    assert BitString(x) == XorBits(Rot(XorBits(BitString(temp), BitString(opc)), r), OneBit(127 - m));
  }

  lemma Out1IsStandard(e: Block -> Block, opc: Block, rand: Block, sqn: seq<byte>, amf: seq<byte>)
    requires |sqn| == 6 && |amf| == 2
    ensures IsOut1(e, opc, Temp(e, opc, rand), sqn, amf, F1Core(e, opc, rand, sqn, amf))
  {
    hide BitString, XorBytes, Rotated, Constant, Temp;
    ConstantString(0);
    var temp, in1: Block := Temp(e, opc, rand), sqn + amf + sqn + amf;
    JoinString(sqn, amf);
    JoinString(sqn + amf, sqn);
    JoinString(sqn + amf + sqn, amf);
    var mixed := Rotated(XorBytes(in1, opc), 64);
    XorString(in1, opc);
    RotString(XorBytes(in1, opc), 64);
    XorString(temp, mixed);
    var x: Block := XorBytes(XorBytes(temp, mixed), Constant(0));
    XorString(XorBytes(temp, mixed), Constant(0));
    XorString(e(x), opc);
    assert BitString(x) == XorBits(XorBits(BitString(temp), Rot(XorBits(BitString(in1), BitString(opc)), 64)), OneBit(NoBit));
  }

  lemma TempIsStandard(e: Block -> Block, opc: Block, rand: Block)
    ensures IsTemp(e, opc, rand, Temp(e, opc, rand))
  {
    XorString(rand, opc);
  }

  /** f1, f1*, f2, f3, f4, f5 and f5* are the parts of OUT1 to OUT5 that the standard names, with its rotations and constants. */
  ghost predicate Standard(e: Block -> Block, opc: Block, rand: Block, sqn: seq<byte>, amf: seq<byte>,
                           temp: Block, out1: Block, out2: Block, out3: Block, out4: Block, out5: Block)
    requires |sqn| == 6 && |amf| == 2
  {
    && IsTemp(e, opc, rand, temp) && IsOut1(e, opc, temp, sqn, amf, out1)
    && IsOut(e, opc, temp, 0, 127, out2) && IsOut(e, opc, temp, 32, 126, out3)
    && IsOut(e, opc, temp, 64, 125, out4) && IsOut(e, opc, temp, 96, 124, out5)
    && BitString(F1(e, opc, rand, sqn, amf)) == BitString(out1)[0..64]
    && BitString(F1Star(e, opc, rand, sqn, amf)) == BitString(out1)[64..128]
    && BitString(F234(e, opc, rand).res) == BitString(out2)[64..128]
    && BitString(F5(e, opc, rand)) == BitString(out2)[0..48]
    && F234(e, opc, rand).ck == out3 && F234(e, opc, rand).ik == out4
    && BitString(F5Star(e, opc, rand)) == BitString(out5)[0..48]
  }

  lemma FollowsStandard(e: Block -> Block, opc: Block, rand: Block, sqn: seq<byte>, amf: seq<byte>)
    requires |sqn| == 6 && |amf| == 2
    ensures exists temp: Block, out1: Block, out2: Block, out3: Block, out4: Block, out5: Block ::
              Standard(e, opc, rand, sqn, amf, temp, out1, out2, out3, out4, out5)
  {
    hide BitString, Out, F1Core, Temp, IsTemp, IsOut, IsOut1;
    Pow2Small();
    TempIsStandard(e, opc, rand);
    Out1IsStandard(e, opc, rand, sqn, amf);
    OutIsStandard(e, opc, rand, 0, 0);
    OutIsStandard(e, opc, rand, 32, 1);
    OutIsStandard(e, opc, rand, 64, 2);
    OutIsStandard(e, opc, rand, 96, 3);
    var out1, out2, out5 := F1Core(e, opc, rand, sqn, amf), Out(e, opc, rand, 0, 1), Out(e, opc, rand, 96, 8);
    SliceString(out1, 0, 8);
    SliceString(out1, 8, 16);
    SliceString(out2, 8, 16);
    SliceString(out2, 0, 6);
    SliceString(out5, 0, 6);
    assert out1[0..8] == out1[..8];
    assert Standard(e, opc, rand, sqn, amf, Temp(e, opc, rand), out1, out2, Out(e, opc, rand, 32, 2), Out(e, opc, rand, 64, 4), out5);
  }
}
