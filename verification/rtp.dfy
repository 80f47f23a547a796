/** RTP packets (section 5.1 of RFC 3550) to wire format and back. */
module Rtp {
  import opened Bits
  import opened Digits
  import opened Flags
  import opened Python
  import opened Wrappers

  const RTP_VERSION: nat := 2
  const PT_TELEPHONE_EVENT: nat := 101

  datatype Packet = Packet(
    version: nat,
    padding: bool,
    extension: bool,
    csrcCount: nat,
    marker: bool,
    payloadType: nat,
    sequenceNumber: nat,
    timestamp: nat,
    ssrc: nat,
    csrcList: seq<nat>,
    payload: seq<byte>)

  // ---- The two flag octets ------------------------------------------------

  function BitOf(on: bool): nat {
    if on then 1 else 0
  }

  /** V(2)|P(1)|X(1)|CC(4) */
  function Octet0(version: nat, padding: bool, extension: bool, csrcCount: nat): (b: nat)
    ensures b == csrcCount % 16 + Shl(4 * version + 2 * BitOf(padding) + BitOf(extension), 4)
  {
    var v, p, x := Shl(version, 6), Shl(BitOf(padding), 5), Shl(BitOf(extension), 4);
    VersionBits(version, BitOf(padding), BitOf(extension));
    CountBits(4 * version + 2 * BitOf(padding) + BitOf(extension), csrcCount);
    Or(Or(Or(v, p), x), And(csrcCount, 0x0F))
  }

  lemma VersionBits(v: nat, p: nat, x: nat)
    requires p < 2 && x < 2
    ensures Or(Or(Shl(v, 6), Shl(p, 5)), Shl(x, 4)) == Shl(4 * v + 2 * p + x, 4)
  {
    hide Or;
    ShlShl(v, 1, 5);
    assert Shl(v, 1) == 2 * v;
    OrShl(2 * v, p, 5);
    OrLowBit(v, p);
    var vp := 2 * v + p;
    ShlShl(vp, 1, 4);
    assert Shl(vp, 1) == 2 * vp;
    OrShl(2 * vp, x, 4);
    OrLowBit(vp, x);
  }

  lemma CountBits(high: nat, csrcCount: nat)
    ensures Or(Shl(high, 4), And(csrcCount, 0x0F)) == csrcCount % 16 + Shl(high, 4)
  {
    hide Or, And, Shl;
    Pow2Small();
    AndMask(csrcCount, 4);
    LowNibble(csrcCount, 4);
    OrDisjoint(csrcCount % 16, high, 4);
    OrCommutes(csrcCount % 16, Shl(high, 4));
  }

  /** M(1)|PT(7) */
  function Octet1(marker: bool, payloadType: nat): (b: byte)
    ensures b == payloadType % 128 + 128 * BitOf(marker)
  {
    TypeBits(BitOf(marker), payloadType);
    Or(Shl(BitOf(marker), 7), And(payloadType, 0x7F))
  }

  lemma TypeBits(high: nat, payloadType: nat)
    ensures Or(Shl(high, 7), And(payloadType, 0x7F)) == payloadType % 128 + 128 * high
  {
    hide Or, And, Shl;
    Pow2Small();
    AndMask(payloadType, 7);
    LowSmall(payloadType);
    OrDisjoint(payloadType % 128, high, 7);
    OrCommutes(payloadType % 128, Shl(high, 7));
    ShlSmall(high);
  }

  /** `(byte0 >> 6) & 0x03` */
  function VersionField(octet: byte): nat {
    And(Shr(octet, 6), 0x03)
  }

  lemma HighNibble(version: nat, p: nat, x: nat, n: nat)
    requires p < 2 && x < 2 && n == 2
    ensures var h := 4 * version + 2 * p + x;
            (Bit(h, 0) <==> x == 1) && (Bit(h, 1) <==> p == 1) && Shr(h, n) == version
  {
    hide Shr;
    var h := 4 * version + 2 * p + x;
    assert h / 2 == 2 * version + p && h % 2 == x;
    TwoOff(h, n);
  }

  /** `h >> 2` */
  lemma TwoOff(h: nat, n: nat)
    requires n == 2
    ensures Shr(h, n) == h / 4
  {
    assert Shr(h, n) == Shr(h / 2, n - 1) == Shr(h / 2 / 2, n - 2);
  }

  lemma ReadOctet0(version: nat, padding: bool, extension: bool, csrcCount: nat, octet: byte)
    requires octet == Octet0(version, padding, extension, csrcCount) && version < 4
    ensures VersionField(octet) == version
    ensures HasFlag(octet, 5) == padding && HasFlag(octet, 4) == extension
    ensures And(octet, 0x0F) == csrcCount % 16
  {
    hide And, Or, Shr, Shl, Low, Bit, HasFlag, Octet0;
    var h := 4 * version + 2 * BitOf(padding) + BitOf(extension);
    Pow2Small();
    JoinBits(csrcCount % 16, h, 4);
    AndMask(octet, 4);
    BitShr(octet, 4, 0);
    BitShr(octet, 4, 1);
    HighNibble(version, BitOf(padding), BitOf(extension), 2);
    ShrShr(octet, 4, 2);
    AndMask(version, 2);
    LowPair(version, 2);
  }

  lemma ReadOctet1(marker: bool, payloadType: nat)
    ensures And(Octet1(marker, payloadType), 0x7F) == payloadType % 128
    ensures HasFlag(Octet1(marker, payloadType), 7) == marker
  {
    hide And, Or, Shr, Low, HasFlag, Octet1;
    var octet := Octet1(marker, payloadType);
    Pow2Small();
    ShlSmall(BitOf(marker));
    JoinBits(payloadType % 128, BitOf(marker), 7);
    AndMask(octet, 7);
    BitShr(octet, 7, 0);
  }

  // ---- Serializing --------------------------------------------------------

  function CsrcBytes(csrcs: seq<nat>): seq<byte> {
    if csrcs == [] then [] else BigBytes(csrcs[0], 4) + CsrcBytes(csrcs[1..])
  }

  /** The fixed header after the flag octets: sequence number, timestamp, SSRC. */
  function CounterBytes(p: Packet): (bs: seq<byte>)
    ensures |bs| == 10
  {
    BigBytes(p.sequenceNumber, 2) + BigBytes(p.timestamp, 4) + BigBytes(p.ssrc, 4)
  }

  /** Wire format; a version that does not fit its two bits is an error. */
  function PacketBytes(p: Packet): Result<seq<byte>> {
    var octet0 := Octet0(p.version, p.padding, p.extension, p.csrcCount);
    if octet0 > 255 then Err
    else Ok([octet0, Octet1(p.marker, p.payloadType)] + CounterBytes(p)
            + CsrcBytes(Take(p.csrcList, p.csrcCount)) + p.payload)
  }

  lemma {:induction false} CsrcAppend(csrcs: seq<nat>, c: nat)
    ensures CsrcBytes(csrcs + [c]) == CsrcBytes(csrcs) + BigBytes(c, 4)
  {
    if csrcs == [] {
      assert ([] + [c])[1..] == [];
    } else {
      CsrcAppend(csrcs[1..], c);
      assert (csrcs + [c])[1..] == csrcs[1..] + [c];
    }
  }

  method ToBytes(p: Packet) returns (r: Result<seq<byte>>)
    ensures r == PacketBytes(p)
  {
    hide BigBytes, Octet1;
    var byte0 := Octet0(p.version, p.padding, p.extension, p.csrcCount);
    var byte1 := Octet1(p.marker, p.payloadType);
    if byte0 > 255 {
      return Err;
    }
    var header: seq<byte> := [byte0, byte1] + CounterBytes(p);
    var csrcs := Take(p.csrcList, p.csrcCount);
    ghost var fixed := header;
    for i := 0 to |csrcs|
      invariant header == fixed + CsrcBytes(csrcs[..i])
    {
      TakeNext(csrcs, i);
      CsrcAppend(csrcs[..i], csrcs[i]);
      header := header + BigBytes(csrcs[i], 4);
    }
    TakeAll(csrcs);
    r := Ok(header + p.payload);
  }

  // ---- Parsing ------------------------------------------------------------

  /** Up to n contributing sources from `offset`, while four octets remain. */
  function CsrcsAt(data: seq<byte>, offset: nat, n: nat): seq<nat>
    decreases n
  {
    if n == 0 || offset + 4 > |data| then []
    else [BigEndian(data[offset..offset + 4])] + CsrcsAt(data, offset + 4, n - 1)
  }

  function ParsePacket(data: seq<byte>): Result<Packet> {
    if |data| < 12 || VersionField(data[0]) != RTP_VERSION then Err
    else
      var padding, extension := HasFlag(data[0], 5), HasFlag(data[0], 4);
      var cc := And(data[0], 0x0F);
      var csrcs := CsrcsAt(data, 12, cc);
      var o := 12 + 4 * |csrcs|;
      var offset := if extension && o + 4 <= |data| then o + 4 + 4 * BigEndian(data[o + 2..o + 4]) else o;
      var end := if padding && |data| > offset then |data| - data[|data| - 1] as int else |data|;
      Ok(Packet(RTP_VERSION, padding, extension, cc, HasFlag(data[1], 7), And(data[1], 0x7F),
                BigEndian(data[2..4]), BigEndian(data[4..8]), BigEndian(data[8..12]),
                csrcs, Slice(data, offset, end)))
  }

  method FromBytes(data: seq<byte>) returns (r: Result<Packet>)
    ensures r == ParsePacket(data)
  {
    hide BigEndian, HasFlag, And, VersionField, Slice;
    if |data| < 12 {
      return Err;
    }
    var byte0, byte1 := data[0], data[1];
    if VersionField(byte0) != RTP_VERSION {
      return Err;
    }
    var padding, extension := HasFlag(byte0, 5), HasFlag(byte0, 4);
    var cc := And(byte0, 0x0F);
    var offset: nat := 12;
    var csrcList: seq<nat> := [];
    for i := 0 to cc
      invariant offset == 12 + 4 * |csrcList|
      invariant csrcList + CsrcsAt(data, offset, cc - i) == CsrcsAt(data, 12, cc)
    {
      if offset + 4 > |data| {
        break;
      }
      csrcList := csrcList + [BigEndian(data[offset..offset + 4])];
      offset := offset + 4;
    }
    assert csrcList == CsrcsAt(data, 12, cc);
    if extension && offset + 4 <= |data| {
      offset := offset + 4 + 4 * BigEndian(data[offset + 2..offset + 4]);
    }
    var payloadEnd: int := |data|;
    if padding && |data| > offset {
      payloadEnd := payloadEnd - data[|data| - 1] as int;
    }
    r := Ok(Packet(RTP_VERSION, padding, extension, cc, HasFlag(byte1, 7), And(byte1, 0x7F),
                   BigEndian(data[2..4]), BigEndian(data[4..8]), BigEndian(data[8..12]),
                   csrcList, Slice(data, offset, payloadEnd)));
  }

  // ---- Round trip ---------------------------------------------------------

  /** Every counter fits its field, and the CSRC count is that of the list or finds no room for more. */
  ghost predicate Fits(p: Packet) {
    && p.payloadType < 128
    && p.sequenceNumber < 0x1_0000 && p.timestamp < 0x1_0000_0000 && p.ssrc < 0x1_0000_0000
    && (forall i :: 0 <= i < |p.csrcList| ==> p.csrcList[i] < 0x1_0000_0000)
    && p.csrcCount <= 15
    && |p.csrcList| <= p.csrcCount
    && (|p.csrcList| < p.csrcCount ==> |p.payload| < 4)
  }

  function Modulus(n: nat): (m: nat)
    requires n == 2 || n == 4
    ensures m == Pow2(8 * n)
  {
    Pow2Large();
    if n == 2 then 0x1_0000 else 0x1_0000_0000
  }

  lemma CounterRoundTrip(v: nat, n: nat)
    requires n == 2 || n == 4
    ensures BigEndian(BigBytes(v, n)) == v <==> v < Modulus(n)
  {
    if v < Modulus(n) {
      BigEndianOf(v, n);
    } else {
      BigEndianBound(BigBytes(v, n));
    }
  }

  /** The sources written are read back, and more only while four octets of payload are left. */
  lemma {:induction false} CsrcRoundTrip(pre: seq<byte>, csrcs: seq<nat>, payload: seq<byte>, n: nat)
    requires |csrcs| <= n
    ensures var data := pre + CsrcBytes(csrcs) + payload;
            var read := CsrcsAt(data, |pre|, n);
            && |read| >= |csrcs| && |pre| + 4 * |read| <= |data|
            && (forall i :: 0 <= i < |csrcs| ==> read[i] == BigEndian(BigBytes(csrcs[i], 4)))
            && (|read| == |csrcs| <==> n == |csrcs| || |payload| < 4)
    decreases n
  {
    hide BigBytes, BigEndian;
    var data := pre + CsrcBytes(csrcs) + payload;
    if csrcs != [] {
      var c := BigBytes(csrcs[0], 4);
      var rest := CsrcBytes(csrcs[1..]);
      assert data == (pre + c) + rest + payload;
      assert data[|pre|..|pre| + 4] == c;
      CsrcRoundTrip(pre + c, csrcs[1..], payload, n - 1);
    } else {
      ReadBound(data, |pre|, n);
      assert |data| == |pre| + |payload|;
    }
  }

  lemma {:induction false} ReadBound(data: seq<byte>, offset: nat, n: nat)
    requires offset <= |data|
    ensures offset + 4 * |CsrcsAt(data, offset, n)| <= |data|
    decreases n
  {
    if n > 0 && offset + 4 <= |data| {
      ReadBound(data, offset + 4, n - 1);
    }
  }

  lemma CounterFields(p: Packet, data: seq<byte>, head: seq<byte>, tail: seq<byte>)
    requires |head| == 2 && data == head + CounterBytes(p) + tail
    ensures data[..2] == head
    ensures data[2..4] == BigBytes(p.sequenceNumber, 2)
    ensures data[4..8] == BigBytes(p.timestamp, 4)
    ensures data[8..12] == BigBytes(p.ssrc, 4)
  {
  }

  lemma {:induction false} CsrcsShort(data: seq<byte>, offset: nat, n: nat)
    ensures |CsrcsAt(data, offset, n)| <= n
    decreases n
  {
    if n > 0 && offset + 4 <= |data| {
      CsrcsShort(data, offset + 4, n - 1);
    }
  }

  lemma SourcesSurvive(sent: seq<nat>, read: seq<nat>)
    requires |read| == |sent|
    requires forall i :: 0 <= i < |sent| ==> read[i] == BigEndian(BigBytes(sent[i], 4))
    ensures read == sent <==> forall i :: 0 <= i < |sent| ==> sent[i] < 0x1_0000_0000
  {
    hide BigEndian, BigBytes;
    forall i | 0 <= i < |sent|
      ensures read[i] == sent[i] <==> sent[i] < 0x1_0000_0000
    {
      CounterRoundTrip(sent[i], 4);
    }
  }

  /** The sources and payload parsed from a packet's octets. */
  lemma BodyRoundTrip(p: Packet, head: seq<byte>)
    requires p.csrcCount <= 15 && |p.csrcList| <= p.csrcCount
    ensures var data := head + CsrcBytes(p.csrcList) + p.payload;
            var read := CsrcsAt(data, |head|, p.csrcCount);
            (read == p.csrcList && Slice(data, |head| + 4 * |read|, |data|) == p.payload)
            <==> ((|p.csrcList| < p.csrcCount ==> |p.payload| < 4)
                  && forall i :: 0 <= i < |p.csrcList| ==> p.csrcList[i] < 0x1_0000_0000)
  {
    hide BigEndian, BigBytes, CsrcsAt;
    var data := head + CsrcBytes(p.csrcList) + p.payload;
    var read := CsrcsAt(data, |head|, p.csrcCount);
    CsrcRoundTrip(head, p.csrcList, p.payload, p.csrcCount);
    CsrcSize(p.csrcList);
    if |read| == |p.csrcList| {
      SourcesSurvive(p.csrcList, read);
      assert Slice(data, |head| + 4 * |read|, |data|) == p.payload;
    }
  }

  lemma {:induction false} CsrcSize(csrcs: seq<nat>)
    ensures |CsrcBytes(csrcs)| == 4 * |csrcs|
  {
    if csrcs != [] {
      CsrcSize(csrcs[1..]);
    }
  }

  /** The twelve octets before the CSRC list. */
  function FixedHeader(p: Packet): (head: seq<byte>)
    requires p.version < 4
    ensures |head| == 12
  {
    ShlSmall(4 * p.version + 2 * BitOf(p.padding) + BitOf(p.extension));
    [Octet0(p.version, p.padding, p.extension, p.csrcCount), Octet1(p.marker, p.payloadType)] + CounterBytes(p)
  }

  /** Parsing the octets of a plain packet, field by field. */
  lemma ReadBack(p: Packet)
    requires p.version == RTP_VERSION && !p.padding && !p.extension
    ensures var sent := Take(p.csrcList, p.csrcCount);
            var data := FixedHeader(p) + CsrcBytes(sent) + p.payload;
            var read := CsrcsAt(data, 12, p.csrcCount % 16);
            && PacketBytes(p) == Ok(data)
            && ParsePacket(data)
               == Ok(Packet(RTP_VERSION, false, false, p.csrcCount % 16, p.marker, p.payloadType % 128,
                            BigEndian(BigBytes(p.sequenceNumber, 2)), BigEndian(BigBytes(p.timestamp, 4)),
                            BigEndian(BigBytes(p.ssrc, 4)), read, Slice(data, 12 + 4 * |read|, |data|)))
  {
    hide BigBytes, BigEndian, Octet0, Octet1, And, Or, HasFlag, VersionField, CsrcsAt, CsrcBytes, ParsePacket;
    var head := FixedHeader(p);
    var sent := Take(p.csrcList, p.csrcCount);
    var data := head + CsrcBytes(sent) + p.payload;
    ReadOctet0(p.version, p.padding, p.extension, p.csrcCount, head[0]);
    ReadOctet1(p.marker, p.payloadType);
    CounterFields(p, data, head[..2], CsrcBytes(sent) + p.payload);
    assert data[0] == head[0] && data[1] == head[1];
    ParsePlain(data);
  }

  /** Without padding or extension, a version-2 packet survives exactly when it fits. */
  lemma RtpRoundTrip(p: Packet)
    requires p.version == RTP_VERSION && !p.padding && !p.extension
    ensures PacketBytes(p).Ok?
    ensures ParsePacket(PacketBytes(p).value) == Ok(p) <==> Fits(p)
  {
    hide BigBytes, BigEndian, PacketBytes, ParsePacket, CsrcsAt, CsrcBytes, FixedHeader;
    ReadBack(p);
    CounterRoundTrip(p.sequenceNumber, 2);
    CounterRoundTrip(p.timestamp, 4);
    CounterRoundTrip(p.ssrc, 4);
    var sent := Take(p.csrcList, p.csrcCount);
    CsrcsShort(FixedHeader(p) + CsrcBytes(sent) + p.payload, 12, p.csrcCount % 16);
    if p.csrcCount <= 15 && |p.csrcList| <= p.csrcCount {
      assert sent == p.csrcList;
      BodyRoundTrip(p, FixedHeader(p));
    }
  }

  /** What the octets of a packet without padding and extension say. */
  function PlainPacket(data: seq<byte>): Packet
    requires |data| >= 12
  {
    var cc := And(data[0], 0x0F);
    var read := CsrcsAt(data, 12, cc);
    Packet(RTP_VERSION, false, false, cc, HasFlag(data[1], 7), And(data[1], 0x7F),
           BigEndian(data[2..4]), BigEndian(data[4..8]), BigEndian(data[8..12]),
           read, Slice(data, 12 + 4 * |read|, |data|))
  }

  lemma ParsePlain(data: seq<byte>)
    requires |data| >= 12 && VersionField(data[0]) == RTP_VERSION
    requires !HasFlag(data[0], 5) && !HasFlag(data[0], 4)
    ensures ParsePacket(data) == Ok(PlainPacket(data))
  {
    hide BigEndian, And, HasFlag, VersionField, CsrcsAt;
  }
}
