/**
 * The Milenage functions over an arbitrary block function in place of AES: what the
 * network computes for a vector, what the USIM accepts, and resynchronisation.
 */
module Milenage {
  import opened Bits
  import opened Digits
  import opened Rotation
  import opened Wrappers

  type Block = b: seq<byte> | |b| == 16 witness seq(16, _ => 0)

  // ---- XOR of byte strings ------------------------------------------------

  function XorByte(a: byte, b: byte): (c: byte)
    ensures c == Xor(a, b)
  {
    XorInByte(a, b);
    Xor(a, b)
  }

  lemma XorInByte(a: byte, b: byte)
    ensures Xor(a, b) < 256
  {
    Pow2Small();
    XorBound(a, b, 8);
  }

  /** As far as the shorter one goes */
  function XorBytes(a: seq<byte>, b: seq<byte>): (c: seq<byte>)
    ensures |c| == if |a| <= |b| then |a| else |b|
  {
    seq(if |a| <= |b| then |a| else |b|, i requires 0 <= i < |a| && i < |b| => XorByte(a[i], b[i]))
  }

  lemma XorBytesCancel(a: seq<byte>, b: seq<byte>)
    requires |a| <= |b|
    ensures XorBytes(XorBytes(a, b), b) == a
  {
    forall i | 0 <= i < |a|
      ensures XorBytes(XorBytes(a, b), b)[i] == a[i]
    {
      XorCancel(a[i], b[i]);
    }
  }

  // ---- f1 to f5 -----------------------------------------------------------

  /** A constant c: all zero but its last byte */
  function Constant(last: byte): Block {
    seq(15, _ => 0) + [last]
  }

  function ComputeOpc(e: Block -> Block, op: Block): Block {
    XorBytes(op, e(op))
  }

  function Temp(e: Block -> Block, opc: Block, rand: Block): Block {
    e(XorBytes(rand, opc))
  }

  /** OUT1 */
  function F1Core(e: Block -> Block, opc: Block, rand: Block, sqn: seq<byte>, amf: seq<byte>): Block
    requires |sqn| == 6 && |amf| >= 2
  {
    var mixed := Rotated(XorBytes(sqn + amf + sqn + amf, opc), 64);
    XorBytes(e(XorBytes(XorBytes(Temp(e, opc, rand), mixed), Constant(0))), opc)
  }

  /** MAC-A */
  function F1(e: Block -> Block, opc: Block, rand: Block, sqn: seq<byte>, amf: seq<byte>): (mac: seq<byte>)
    requires |sqn| == 6 && |amf| >= 2
    ensures |mac| == 8
  {
    F1Core(e, opc, rand, sqn, amf)[..8]
  }

  /** MAC-S */
  function F1Star(e: Block -> Block, opc: Block, rand: Block, sqn: seq<byte>, amf: seq<byte>): (mac: seq<byte>)
    requires |sqn| == 6 && |amf| >= 2
    ensures |mac| == 8
  {
    F1Core(e, opc, rand, sqn, amf)[8..16]
  }

  /** OUT2 to OUT5 */
  function Out(e: Block -> Block, opc: Block, rand: Block, shift: nat, last: byte): Block {
    XorBytes(e(XorBytes(Rotated(XorBytes(Temp(e, opc, rand), opc), shift), Constant(last))), opc)
  }

  datatype Answer = Answer(res: seq<byte>, ck: seq<byte>, ik: seq<byte>)

  /** f2, f3 and f4 */
  function F234(e: Block -> Block, opc: Block, rand: Block): Answer {
    Answer(Out(e, opc, rand, 0, 1)[8..16], Out(e, opc, rand, 32, 2), Out(e, opc, rand, 64, 4))
  }

  /** f5 */
  function F5(e: Block -> Block, opc: Block, rand: Block): (ak: seq<byte>)
    ensures |ak| == 6
  {
    Out(e, opc, rand, 0, 1)[0..6]
  }

  function F5Star(e: Block -> Block, opc: Block, rand: Block): (ak: seq<byte>)
    ensures |ak| == 6
  {
    Out(e, opc, rand, 96, 8)[0..6]
  }

  // ---- Authentication -----------------------------------------------------

  /** What both vector generators put in AUTN */
  function Autn(e: Block -> Block, opc: Block, rand: Block, sqn: seq<byte>, amf: seq<byte>): (autn: seq<byte>)
    requires |sqn| == 6 && |amf| >= 2
    ensures |autn| == 14 + |amf|
  {
    XorBytes(sqn, F5(e, opc, rand)) + amf + F1(e, opc, rand, sqn, amf)
  }

  /** `Ok(None)` asks for resynchronisation; other lengths than 16 are an error. */
  function Authenticate(e: Block -> Block, opc: Block, rand: seq<byte>, autn: seq<byte>, sqnStored: int): Result<Option<Answer>> {
    if |rand| != 16 || |autn| != 16 then Err
    else
      var sqn, amf := XorBytes(autn[0..6], F5(e, opc, rand)), autn[6..8];
      if F1(e, opc, rand, sqn, amf) != autn[8..16] then Ok(None)
      else if BigEndian(sqn) < sqnStored then Ok(None)
      else Ok(Some(F234(e, opc, rand)))
  }

  /** AUTN is the token some generator makes for this RAND and a SQN that is fresh enough. */
  ghost predicate FreshToken(e: Block -> Block, opc: Block, rand: Block, autn: seq<byte>, sqnStored: int) {
    exists sqn: seq<byte>, amf: seq<byte> ::
      |sqn| == 6 && |amf| == 2 && autn == Autn(e, opc, rand, sqn, amf) && BigEndian(sqn) >= sqnStored
  }

  lemma AutnParts(e: Block -> Block, opc: Block, rand: Block, sqn: seq<byte>, amf: seq<byte>)
    requires |sqn| == 6 && |amf| == 2
    ensures var autn := Autn(e, opc, rand, sqn, amf);
            && autn[0..6] == XorBytes(sqn, F5(e, opc, rand)) && autn[6..8] == amf
            && autn[8..16] == F1(e, opc, rand, sqn, amf)
            && XorBytes(autn[0..6], F5(e, opc, rand)) == sqn
  {
    hide F5, F1, XorBytes;
    XorBytesCancel(sqn, F5(e, opc, rand));
  }

  /**
   * The USIM accepts a challenge if and only if its AUTN is a genuine token whose SQN
   * is at least the stored one, and then answers with the generator's RES, CK and IK.
   */
  lemma AcceptsFreshTokens(e: Block -> Block, opc: Block, rand: Block, autn: Block, sqnStored: int)
    ensures Authenticate(e, opc, rand, autn, sqnStored)
            == Ok(if FreshToken(e, opc, rand, autn, sqnStored) then Some(F234(e, opc, rand)) else None)
  {
    hide F5, F1, F234, XorBytes, Autn;
    var ak := F5(e, opc, rand);
    var sqn, amf := XorBytes(autn[0..6], ak), autn[6..8];
    if F1(e, opc, rand, sqn, amf) == autn[8..16] {
      Reassembled(e, opc, rand, autn);
    }
    if FreshToken(e, opc, rand, autn, sqnStored) {
      var s: seq<byte>, a: seq<byte> :|
        |s| == 6 && |a| == 2 && autn == Autn(e, opc, rand, s, a) && BigEndian(s) >= sqnStored;
      AutnParts(e, opc, rand, s, a);
    }
  }

  /** A token that passes the MAC check is the one made for the SQN it conceals. */
  lemma Reassembled(e: Block -> Block, opc: Block, rand: Block, autn: Block)
    requires var sqn := XorBytes(autn[0..6], F5(e, opc, rand));
             F1(e, opc, rand, sqn, autn[6..8]) == autn[8..16]
    ensures autn == Autn(e, opc, rand, XorBytes(autn[0..6], F5(e, opc, rand)), autn[6..8])
  {
    hide F5, F1, XorBytes;
    XorBytesCancel(autn[0..6], F5(e, opc, rand));
    assert autn == autn[0..6] + autn[6..8] + autn[8..16];
  }

  /** A generator's own token: accepted exactly when its SQN is at least the stored one. */
  lemma GeneratedToken(e: Block -> Block, opc: Block, rand: Block, sqn: nat, amf: seq<byte>, sqnStored: int)
    requires sqn < Pow2(48) && |amf| == 2
    ensures Authenticate(e, opc, rand, Autn(e, opc, rand, BigBytes(sqn, 6), amf), sqnStored)
            == Ok(if sqn >= sqnStored then Some(F234(e, opc, rand)) else None)
  {
    hide F5, F1, F234, XorBytes, Autn, Pow2;
    BigEndianOf(sqn, 6);
    AutnParts(e, opc, rand, BigBytes(sqn, 6), amf);
  }

  // ---- Resynchronisation --------------------------------------------------

  /** `to_bytes(6, "big")` fails outside 48 bits. */
  predicate SqnFits(sqn: int) {
    0 <= sqn < 0x1_0000_0000_0000
  }

  function GenerateAuts(e: Block -> Block, opc: Block, rand: Block, sqnStored: int): Result<seq<byte>> {
    if !SqnFits(sqnStored) then Err
    else
      var sqn := BigBytes(sqnStored, 6);
      Ok(XorBytes(sqn, F5Star(e, opc, rand)) + F1Star(e, opc, rand, sqn, [0, 0]))
  }

  /** The network gets the stored SQN back from AUTS and RAND, and finds the MAC-S that goes with it. */
  lemma AutsTellsSqn(e: Block -> Block, opc: Block, rand: Block, sqnStored: int)
    ensures GenerateAuts(e, opc, rand, sqnStored).Err? <==> !SqnFits(sqnStored)
    ensures SqnFits(sqnStored) ==>
              var auts := GenerateAuts(e, opc, rand, sqnStored).value;
              |auts| == 14
              && var sqn := XorBytes(auts[0..6], F5Star(e, opc, rand));
                 BigEndian(sqn) == sqnStored && auts[6..14] == F1Star(e, opc, rand, sqn, [0, 0])
  {
    hide F5Star, F1Star, XorBytes, BigBytes, BigEndian, Pow2;
    if SqnFits(sqnStored) {
      var sqn, ak := BigBytes(sqnStored, 6), F5Star(e, opc, rand);
      Pow2Large();
      BigEndianOf(sqnStored, 6);
      XorBytesCancel(sqn, ak);
      var auts := GenerateAuts(e, opc, rand, sqnStored).value;
      assert auts[0..6] == XorBytes(sqn, ak);
      assert auts[6..14] == F1Star(e, opc, rand, sqn, [0, 0]);
    }
  }
}
