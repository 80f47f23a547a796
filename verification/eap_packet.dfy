/**
 * EAP-AKA packets (section 8.1 of RFC 4187): the attribute loop, including where it
 * never ends, and the printer it undoes up to padding.
 */
module EapPackets {
  import opened Bits
  import opened Dicts
  import opened Digits
  import opened Python
  import opened Wrappers

  const REQUEST := 1
  const RESPONSE := 2
  const SUCCESS := 3
  const FAILURE := 4

  type Attributes = seq<Entry<int, seq<byte>>>

  datatype Packet = Packet(
    code: int,
    identifier: int,
    eapType: Option<int>,
    subtype: Option<int>,
    attributes: Attributes)

  /** `Endless` is a loop that never ends. */
  datatype Outcome = Parsed(packet: Packet) | Invalid | Endless

  predicate EapCode(x: int) {
    1 <= x <= 4
  }

  predicate EapType(x: int) {
    x == 1 || x == 23 || x == 50
  }

  predicate AkaSubtype(x: int) {
    x == 1 || x == 2 || x == 4 || x == 5 || x == 12 || x == 13 || x == 14
  }

  // ---- Parsing ------------------------------------------------------------

  /** An attribute's length, given in words of four octets */
  function AttrLength(data: seq<byte>, pos: nat): nat
    requires pos + 1 < |data|
  {
    var words: nat := data[pos + 1];
    words * 4
  }

  /** The attribute loop from a position on; None is a loop that never ends. */
  function ReadAttributes(data: seq<byte>, length: nat, pos: nat, attributes: Attributes): Option<Attributes>
    decreases |data| - pos
  {
    if pos >= length || pos + 4 > |data| then Some(attributes)
    else if data[pos + 1] == 0 then None
    else
      var attrLen := AttrLength(data, pos);
      ReadAttributes(data, length, pos + attrLen, Put(attributes, data[pos] as int, Slice(data, pos + 4, pos + attrLen)))
  }

  function ParsePacket(data: seq<byte>): Outcome {
    if |data| < 4 || !EapCode(data[0]) then Invalid
    else if data[0] == SUCCESS || data[0] == FAILURE then Parsed(Packet(data[0], data[1], None, None, []))
    else if |data| < 8 || !EapType(data[4]) || !AkaSubtype(data[5]) then Invalid
    else
      match ReadAttributes(data, BigEndian(data[2..4]), 8, [])
      case None => Endless
      case Some(attributes) => Parsed(Packet(data[0], data[1], Some(data[4] as int), Some(data[5] as int), attributes))
  }

  method Parse(data: seq<byte>) returns (r: Outcome)
    ensures r == ParsePacket(data)
  {
    hide Put, Slice;
    if |data| < 4 || !EapCode(data[0]) {
      return Invalid;
    }
    var code, identifier, length := data[0], data[1], BigEndian(data[2..4]);
    if code == SUCCESS || code == FAILURE {
      return Parsed(Packet(code, identifier, None, None, []));
    }
    if |data| < 8 || !EapType(data[4]) || !AkaSubtype(data[5]) {
      return Invalid;
    }
    var attributes: Attributes := [];
    var pos: nat := 8;
    while pos < length
      invariant ReadAttributes(data, length, 8, []) == ReadAttributes(data, length, pos, attributes)
      decreases |data| + 1020 - pos
    {
      if pos + 4 > |data| {
        break;
      }
      var attrType, attrLen := data[pos], AttrLength(data, pos);
      if attrLen == 0 {
        return Endless;
      }
      attributes := Put(attributes, attrType as int, Slice(data, pos + 4, pos + attrLen));
      pos := pos + attrLen;
    }
    r := Parsed(Packet(code, identifier, Some(data[4] as int), Some(data[5] as int), attributes));
  }

  // ---- The loop turn by turn ----------------------------------------------

  datatype Loop = Loop(pos: nat, attributes: Attributes)

  predicate Stopped(data: seq<byte>, length: nat, s: Loop) {
    s.pos >= length || s.pos + 4 > |data|
  }

  /** One turn of the loop, as the code takes it */
  function Turn(data: seq<byte>, length: nat, s: Loop): Loop {
    if Stopped(data, length, s) then s
    else
      var attrLen := AttrLength(data, s.pos);
      Loop(s.pos + attrLen, Put(s.attributes, data[s.pos] as int, Slice(data, s.pos + 4, s.pos + attrLen)))
  }

  /** The state after n turns */
  function Turns(data: seq<byte>, length: nat, start: Loop, n: nat): Loop {
    if n == 0 then start else Turn(data, length, Turns(data, length, start, n - 1))
  }

  /** The loop comes to an attribute whose length octet is zero. */
  ghost predicate ReachesZero(data: seq<byte>, length: nat, start: Loop) {
    exists n: nat :: ZeroAfter(data, length, start, n)
  }

  ghost predicate ZeroAfter(data: seq<byte>, length: nat, start: Loop, n: nat) {
    var s := Turns(data, length, start, n);
    !Stopped(data, length, s) && data[s.pos + 1] == 0
  }

  lemma {:induction false} TurnFirst(data: seq<byte>, length: nat, start: Loop, n: nat)
    requires !Stopped(data, length, start)
    ensures Turns(data, length, start, n + 1) == Turns(data, length, Turns(data, length, start, 1), n)
  {
    hide Turn;
    assert Turns(data, length, start, 0) == start;
    if n > 0 {
      TurnFirst(data, length, start, n - 1);
    }
  }

  lemma {:induction false} StoppedStays(data: seq<byte>, length: nat, start: Loop, n: nat)
    requires Stopped(data, length, start)
    ensures Turns(data, length, start, n) == start
  {
    if n > 0 {
      StoppedStays(data, length, start, n - 1);
    }
  }

  lemma {:induction false} ZeroStays(data: seq<byte>, length: nat, start: Loop, n: nat)
    requires !Stopped(data, length, start) && data[start.pos + 1] == 0
    ensures Turns(data, length, start, n).pos == start.pos
  {
    hide Put, Slice;
    if n > 0 {
      ZeroStays(data, length, start, n - 1);
    }
  }

  /**
   * The loop stops, at what the parser returns, or goes on for ever; it goes on for
   * ever exactly when it reaches a zero length octet.
   */
  lemma {:induction false} LoopEnds(data: seq<byte>, length: nat, start: Loop)
    ensures match ReadAttributes(data, length, start.pos, start.attributes)
            case Some(attributes) =>
              !ReachesZero(data, length, start)
              && exists n: nat :: Stopped(data, length, Turns(data, length, start, n))
                                  && Turns(data, length, start, n).attributes == attributes
            case None =>
              ReachesZero(data, length, start)
              && forall n: nat :: !Stopped(data, length, Turns(data, length, start, n))
    decreases |data| - start.pos
  {
    hide Put, Slice;
    assert Turns(data, length, start, 0) == start;
    assert ZeroAfter(data, length, start, 0) <==> !Stopped(data, length, start) && data[start.pos + 1] == 0;
    if Stopped(data, length, start) {
      forall n: nat
        ensures Turns(data, length, start, n) == start
      {
        StoppedStays(data, length, start, n);
      }
    } else if data[start.pos + 1] == 0 {
      forall n: nat
        ensures Turns(data, length, start, n).pos == start.pos
      {
        ZeroStays(data, length, start, n);
      }
    } else {
      var next := Turns(data, length, start, 1);
      assert next.pos == start.pos + AttrLength(data, start.pos);
      LoopEnds(data, length, next);
      LaterTurns(data, length, start, next);
    }
  }

  /** What happens after the first turn happens. */
  lemma LaterTurns(data: seq<byte>, length: nat, start: Loop, next: Loop)
    requires !Stopped(data, length, start) && data[start.pos + 1] != 0 && next == Turns(data, length, start, 1)
    ensures ReachesZero(data, length, start) <==> ReachesZero(data, length, next)
    ensures forall n: nat :: Turns(data, length, start, n + 1) == Turns(data, length, next, n)
    ensures (forall n: nat :: !Stopped(data, length, Turns(data, length, next, n)))
            ==> forall n: nat :: !Stopped(data, length, Turns(data, length, start, n))
  {
    hide Turn, Turns;
    forall n: nat
      ensures Turns(data, length, start, n + 1) == Turns(data, length, next, n)
    {
      TurnFirst(data, length, start, n);
    }
    assert Turns(data, length, start, 0) == start by {
      NoTurn(data, length, start);
    }
    if ReachesZero(data, length, start) {
      var n: nat :| ZeroAfter(data, length, start, n);
      if n > 0 {
        assert Turns(data, length, start, (n - 1) + 1) == Turns(data, length, next, n - 1);
        assert ZeroAfter(data, length, next, n - 1);
      }
    }
    if ReachesZero(data, length, next) {
      var n: nat :| ZeroAfter(data, length, next, n);
      assert ZeroAfter(data, length, start, n + 1);
    }
    forall n: nat | forall k: nat :: !Stopped(data, length, Turns(data, length, next, k))
      ensures !Stopped(data, length, Turns(data, length, start, n))
    {
      if n > 0 {
        assert Turns(data, length, start, (n - 1) + 1) == Turns(data, length, next, n - 1);
      }
    }
  }

  lemma NoTurn(data: seq<byte>, length: nat, start: Loop)
    ensures Turns(data, length, start, 0) == start
  {
  }

  // ---- Printing -----------------------------------------------------------

  /** Zeros up to the next multiple of four */
  function PadLength(n: nat): (k: nat)
    ensures k < 4 && (n + k) % 4 == 0
  {
    if n % 4 == 0 then 0 else 4 - n % 4
  }

  function PaddedValue(value: seq<byte>): (r: seq<byte>)
    ensures |r| == |value| + PadLength(|value|) && r[..|value|] == value
    ensures forall i :: |value| <= i < |r| ==> r[i] == 0
  {
    value + seq(PadLength(|value|), _ => 0)
  }

  /** One attribute; `struct.pack` fails outside an octet. */
  function AttributeBytes(a: Entry<int, seq<byte>>): Result<seq<byte>> {
    var words := (4 + |PaddedValue(a.value)|) / 4;
    if !(0 <= a.key < 256) || words > 255 then Err else Ok([a.key as byte, words as byte, 0, 0] + PaddedValue(a.value))
  }

  function AttributesBytes(attributes: Attributes): Result<seq<byte>> {
    if attributes == [] then Ok([])
    else
      match (AttributesBytes(attributes[..|attributes| - 1]), AttributeBytes(attributes[|attributes| - 1]))
      case (Ok(front), Ok(last)) => Ok(front + last)
      case _ => Err
  }

  predicate Octet(x: int) {
    0 <= x < 256
  }

  function PacketBytes(p: Packet): Result<seq<byte>> {
    if p.code == SUCCESS || p.code == FAILURE then
      if !Octet(p.identifier) then Err else Ok([p.code as byte, p.identifier as byte, 0, 4])
    else
      match AttributesBytes(p.attributes)
      case Err => Err
      case Ok(bytes) =>
        var total := 8 + |bytes|;
        if !Octet(p.code) || !Octet(p.identifier) || total >= 0x1_0000 || p.eapType.None? || p.subtype.None?
           || !Octet(p.eapType.value) || !Octet(p.subtype.value) then Err
        else Ok([p.code as byte, p.identifier as byte] + BigBytes(total, 2)
                + [p.eapType.value as byte, p.subtype.value as byte, 0, 0] + bytes)
  }

  method Serialize(p: Packet) returns (r: Result<seq<byte>>)
    ensures r == PacketBytes(p)
  {
    hide AttributeBytes, BigBytes;
    if p.code == SUCCESS || p.code == FAILURE {
      return if !Octet(p.identifier) then Err else Ok([p.code as byte, p.identifier as byte, 0, 4]);
    }
    var bytes := [];
    for i := 0 to |p.attributes|
      invariant AttributesBytes(p.attributes[..i]) == Ok(bytes)
    {
      assert p.attributes[..i + 1][..i] == p.attributes[..i];
      var attribute := AttributeBytes(p.attributes[i]);
      if attribute.Err? {
        ErrStays(p.attributes, i + 1);
        return Err;
      }
      bytes := bytes + attribute.value;
    }
    assert p.attributes[..|p.attributes|] == p.attributes;
    var total := 8 + |bytes|;
    if !Octet(p.code) || !Octet(p.identifier) || total >= 0x1_0000 || p.eapType.None? || p.subtype.None?
       || !Octet(p.eapType.value) || !Octet(p.subtype.value) {
      return Err;
    }
    var header := [p.code as byte, p.identifier as byte] + BigBytes(total, 2)
                  + [p.eapType.value as byte, p.subtype.value as byte, 0, 0];
    r := Ok(header + bytes);
  }

  lemma {:induction false} ErrStays(attributes: Attributes, i: nat)
    requires i <= |attributes| && AttributesBytes(attributes[..i]).Err?
    ensures AttributesBytes(attributes).Err?
    decreases |attributes|
  {
    if i < |attributes| {
      var n := |attributes| - 1;
      assert attributes[..n][..i] == attributes[..i];
      ErrStays(attributes[..n], i);
    } else {
      assert attributes[..i] == attributes;
    }
  }

  // ---- Round trips --------------------------------------------------------

  function PaddedAttributes(attributes: Attributes): (r: Attributes)
    ensures |r| == |attributes|
    ensures forall i :: 0 <= i < |r| ==> r[i] == Entry(attributes[i].key, PaddedValue(attributes[i].value))
  {
    seq(|attributes|, i requires 0 <= i < |attributes| => Entry(attributes[i].key, PaddedValue(attributes[i].value)))
  }

  function PaddedPacket(p: Packet): Packet {
    p.(attributes := PaddedAttributes(p.attributes))
  }

  /** What section 8.1 lets a packet hold: octets, values of at most 1016 octets, a length of two octets. */
  predicate AttributesFit(attributes: Attributes) {
    forall i :: 0 <= i < |attributes| ==> Octet(attributes[i].key) && |attributes[i].value| <= 1016
  }

  function AttributesLength(attributes: Attributes): nat {
    if attributes == [] then 0
    else AttributesLength(attributes[..|attributes| - 1]) + 4 + |PaddedValue(attributes[|attributes| - 1].value)|
  }

  lemma WordsFit(value: seq<byte>)
    ensures (4 + |PaddedValue(value)|) / 4 <= 255 <==> |value| <= 1016
    ensures (4 + |PaddedValue(value)|) / 4 * 4 == 4 + |PaddedValue(value)|
  {
  }

  lemma {:induction false} AttributesBytesFit(attributes: Attributes)
    ensures AttributesBytes(attributes).Ok? <==> AttributesFit(attributes)
    ensures AttributesFit(attributes) ==> |AttributesBytes(attributes).value| == AttributesLength(attributes)
  {
    hide PaddedValue;
    if attributes != [] {
      var n := |attributes| - 1;
      AttributesBytesFit(attributes[..n]);
      WordsFit(attributes[n].value);
      assert AttributesFit(attributes) <==>
             AttributesFit(attributes[..n]) && Octet(attributes[n].key) && |attributes[n].value| <= 1016;
    }
  }

  /** A request or response prints exactly when everything in it fits. */
  lemma PrintsWhenFits(p: Packet)
    requires p.code == REQUEST || p.code == RESPONSE
    ensures PacketBytes(p).Ok? <==>
            Octet(p.identifier) && p.eapType.Some? && Octet(p.eapType.value) && p.subtype.Some? && Octet(p.subtype.value)
            && AttributesFit(p.attributes) && 8 + AttributesLength(p.attributes) < 0x1_0000
  {
    hide AttributesBytes, BigBytes;
    AttributesBytesFit(p.attributes);
  }

  /** Reading one printed attribute where it stands */
  lemma OneReads(data: seq<byte>, length: nat, pos: nat, acc: Attributes, a: Entry<int, seq<byte>>)
    requires AttributeBytes(a).Ok? && length <= |data|
    requires var bytes := AttributeBytes(a).value; pos + |bytes| <= length && data[pos..pos + |bytes|] == bytes
    requires KeyAt(acc, a.key) == |acc|
    ensures var next := pos + |AttributeBytes(a).value|;
            ReadAttributes(data, length, pos, acc)
            == ReadAttributes(data, length, next, acc + [Entry(a.key, PaddedValue(a.value))])
  {
    hide PaddedValue, KeyAt;
    var bytes := AttributeBytes(a).value;
    WordsFit(a.value);
    var part := data[pos..pos + |bytes|];
    assert part[0] == data[pos] && part[1] == data[pos + 1];
    assert data[pos + 4..pos + |bytes|] == part[4..] == PaddedValue(a.value);
  }

  /** Where the attributes from i on are printed, the loop reads them. */
  lemma {:induction false} AllRead(data: seq<byte>, pos: nat, attributes: Attributes, acc: Attributes)
    requires AttributesBytes(attributes).Ok? && pos + |AttributesBytes(attributes).value| <= |data|
    requires data[pos..pos + |AttributesBytes(attributes).value|] == AttributesBytes(attributes).value
    requires DistinctKeys(acc + attributes)
    ensures ReadAttributes(data, |data|, pos, acc)
            == ReadAttributes(data, |data|, pos + |AttributesBytes(attributes).value|, acc + PaddedAttributes(attributes))
  {
    hide AttributeBytes, ReadAttributes, PaddedValue, KeyAt;
    var end := pos + |AttributesBytes(attributes).value|;
    if attributes == [] {
      assert acc + PaddedAttributes(attributes) == acc;
    } else {
      var n := |attributes| - 1;
      var front, last := attributes[..n], attributes[n];
      var fb, lb := AttributesBytes(front).value, AttributeBytes(last).value;
      assert data[pos..end] == fb + lb;
      assert data[pos..end][..|fb|] == data[pos..pos + |fb|];
      assert data[pos..end][|fb|..] == data[pos + |fb|..end];
      FrontDistinct(acc, attributes);
      AllRead(data, pos, front, acc);
      LastIsNew(acc, attributes);
      OneReads(data, |data|, pos + |fb|, acc + PaddedAttributes(front), last);
      assert acc + PaddedAttributes(attributes)
             == acc + PaddedAttributes(front) + [Entry(last.key, PaddedValue(last.value))];
    }
  }

  lemma FrontDistinct(acc: Attributes, attributes: Attributes)
    requires attributes != [] && DistinctKeys(acc + attributes)
    ensures DistinctKeys(acc + attributes[..|attributes| - 1])
  {
    var all, part := acc + attributes, acc + attributes[..|attributes| - 1];
    assert part == all[..|all| - 1];
  }

  lemma LastIsNew(acc: Attributes, attributes: Attributes)
    requires attributes != [] && DistinctKeys(acc + attributes)
    ensures var n := |attributes| - 1;
            KeyAt(acc + PaddedAttributes(attributes[..n]), attributes[n].key) == |acc| + n
  {
    hide PaddedValue;
    var n := |attributes| - 1;
    var all, part := acc + attributes, acc + PaddedAttributes(attributes[..n]);
    forall k | 0 <= k < |part|
      ensures part[k].key != attributes[n].key
    {
      assert part[k].key == all[k].key && all[|all| - 1] == attributes[n];
    }
  }

  /** Every request or response that prints parses to itself, its values padded with zeros to whole words. */
  lemma EapRoundTrip(p: Packet)
    requires p.code == REQUEST || p.code == RESPONSE
    requires p.eapType.Some? && EapType(p.eapType.value) && p.subtype.Some? && AkaSubtype(p.subtype.value)
    requires DistinctKeys(p.attributes) && PacketBytes(p).Ok?
    ensures ParsePacket(PacketBytes(p).value) == Parsed(PaddedPacket(p))
  {
    hide AttributesBytes, PaddedAttributes, BigBytes, BigEndian, DistinctKeys, ReadAttributes, Pow2, Put;
    var data, bytes := PacketBytes(p).value, AttributesBytes(p.attributes).value;
    var total := 8 + |bytes|;
    HeaderReads(p, data, bytes);
    assert data[8..8 + |bytes|] == bytes;
    assert [] + p.attributes == p.attributes && [] + PaddedAttributes(p.attributes) == PaddedAttributes(p.attributes);
    AllRead(data, 8, p.attributes, []);
    assert ReadAttributes(data, total, total, PaddedAttributes(p.attributes)) == Some(PaddedAttributes(p.attributes)) by {
      EndOfData(data, PaddedAttributes(p.attributes));
    }
  }

  lemma EndOfData(data: seq<byte>, attributes: Attributes)
    ensures ReadAttributes(data, |data|, |data|, attributes) == Some(attributes)
  {
  }

  lemma HeaderReads(p: Packet, data: seq<byte>, bytes: seq<byte>)
    requires Octet(p.code) && Octet(p.identifier) && p.eapType.Some? && Octet(p.eapType.value)
    requires p.subtype.Some? && Octet(p.subtype.value) && 8 + |bytes| < 0x1_0000
    requires data == [p.code as byte, p.identifier as byte] + BigBytes(8 + |bytes|, 2)
                     + [p.eapType.value as byte, p.subtype.value as byte, 0, 0] + bytes
    ensures |data| == 8 + |bytes| && BigEndian(data[2..4]) == |data| && data[8..] == bytes
    ensures data[0] == p.code && data[1] == p.identifier && data[4] == p.eapType.value && data[5] == p.subtype.value
  {
    hide BigBytes, BigEndian, Pow2;
    TwoOctetsHold(8 + |bytes|);
    Layout(p.code as byte, p.identifier as byte, BigBytes(8 + |bytes|, 2), p.eapType.value as byte, p.subtype.value as byte, bytes);
  }

  lemma Layout(a: byte, b: byte, middle: seq<byte>, c: byte, d: byte, bytes: seq<byte>)
    requires |middle| == 2
    ensures var data := [a, b] + middle + [c, d, 0, 0] + bytes;
            && |data| == 8 + |bytes| && data[2..4] == middle && data[8..] == bytes
            && data[0] == a && data[1] == b && data[4] == c && data[5] == d
  {
  }

  /** Success and failure packets keep only their code and identifier. */
  lemma VerdictRoundTrip(p: Packet)
    requires (p.code == SUCCESS || p.code == FAILURE) && PacketBytes(p).Ok?
    ensures ParsePacket(PacketBytes(p).value) == Parsed(Packet(p.code, p.identifier, None, None, []))
  {
  }

  lemma PaddingOnce(value: seq<byte>)
    ensures PaddedValue(PaddedValue(value)) == PaddedValue(value)
    ensures |value| % 4 == 0 ==> PaddedValue(value) == value
  {
  }

  lemma {:induction false} PaddedBytes(attributes: Attributes)
    ensures AttributesBytes(PaddedAttributes(attributes)) == AttributesBytes(attributes)
  {
    hide PaddedValue;
    if attributes != [] {
      var n := |attributes| - 1;
      PaddedBytes(attributes[..n]);
      assert PaddedAttributes(attributes)[..n] == PaddedAttributes(attributes[..n]);
      PaddingOnce(attributes[n].value);
    }
  }

  /** A second trip changes nothing, and a packet of whole words survives the first unchanged. */
  lemma SecondTrip(p: Packet)
    ensures PaddedPacket(PaddedPacket(p)) == PaddedPacket(p)
    ensures PacketBytes(PaddedPacket(p)) == PacketBytes(p)
    ensures (forall i :: 0 <= i < |p.attributes| ==> |p.attributes[i].value| % 4 == 0) ==> PaddedPacket(p) == p
  {
    hide PaddedValue, AttributesBytes;
    forall i | 0 <= i < |p.attributes|
      ensures var v := p.attributes[i].value;
              PaddedValue(PaddedValue(v)) == PaddedValue(v) && (|v| % 4 == 0 ==> PaddedValue(v) == v)
    {
      PaddingOnce(p.attributes[i].value);
    }
    PaddedBytes(p.attributes);
  }

  // ---- Octets -------------------------------------------------------------

  /**
   * A printed request or response octet by octet: code, identifier, the length of the
   * whole, type, subtype, two zeros, and the attributes where the ones before them end.
   */
  lemma PacketLayout(p: Packet)
    requires (p.code == REQUEST || p.code == RESPONSE) && PacketBytes(p).Ok?
    ensures var data := PacketBytes(p).value;
            && |data| == 8 + AttributesLength(p.attributes)
            && data[0] == p.code && data[1] == p.identifier && 256 * data[2] as int + data[3] as int == |data|
            && p.eapType == Some(data[4] as int) && p.subtype == Some(data[5] as int) && data[6] == data[7] == 0
            && forall i :: 0 <= i < |p.attributes| ==> PrintedAt(data, 8 + AttributesLength(p.attributes[..i]), p.attributes[i])
  {
    hide AttributesBytes, BigBytes, AttributesLength, PaddedValue;
    var data, bytes := PacketBytes(p).value, AttributesBytes(p.attributes).value;
    AttributesBytesFit(p.attributes);
    LengthOctets(8 + |bytes|);
    assert data[8..] == bytes;
    forall i | 0 <= i < |p.attributes|
      ensures PrintedAt(data, 8 + AttributesLength(p.attributes[..i]), p.attributes[i])
    {
      AttributePrinted(p.attributes, i, data, 8);
    }
  }

  /** Type, length in words, two zeros, the value, and zeros to the end of a word */
  ghost predicate PrintedAt(data: seq<byte>, at: nat, a: Entry<int, seq<byte>>) {
    && at + 4 + |a.value| <= |data|
    && data[at] == a.key && data[at + 2] == data[at + 3] == 0
    && data[at + 4..at + 4 + |a.value|] == a.value
    && var end := at + 4 * data[at + 1] as int;
       && at + 4 + |a.value| <= end <= |data| && end - at - 4 - |a.value| < 4
       && forall k :: at + 4 + |a.value| <= k < end ==> data[k] == 0
  }

  lemma LengthOctets(n: nat)
    requires n < 0x1_0000
    ensures BigBytes(n, 2) == [n / 256, n % 256]
  {
    var k := 2;
    assert BigBytes(n, k) == BigBytes(n / 256, k - 1) + [n % 256];
    assert BigBytes(n / 256, k - 1) == BigBytes(n / 256 / 256, k - 2) + [n / 256 % 256];
  }

  lemma {:induction false} AttributePrinted(attributes: Attributes, i: nat, data: seq<byte>, at: nat)
    requires i < |attributes| && AttributesBytes(attributes).Ok?
    requires at + |AttributesBytes(attributes).value| <= |data|
    requires data[at..at + |AttributesBytes(attributes).value|] == AttributesBytes(attributes).value
    ensures PrintedAt(data, at + AttributesLength(attributes[..i]), attributes[i])
    decreases |attributes|
  {
    hide AttributeBytes, PaddedValue, PrintedAt, AttributesLength;
    var n := |attributes| - 1;
    var front, last := AttributesBytes(attributes[..n]).value, AttributeBytes(attributes[n]).value;
    var whole := data[at..at + |front| + |last|];
    assert whole == front + last;
    if i < n {
      assert data[at..at + |front|] == whole[..|front|];
      assert attributes[..n][..i] == attributes[..i];
      AttributePrinted(attributes[..n], i, data, at);
    } else {
      AttributesBytesFit(attributes[..n]);
      assert data[at + |front|..at + |front| + |last|] == whole[|front|..];
      OnePrinted(attributes[n], data, at + |front|);
    }
  }

  lemma OnePrinted(a: Entry<int, seq<byte>>, data: seq<byte>, at: nat)
    requires AttributeBytes(a).Ok? && at + |AttributeBytes(a).value| <= |data|
    requires data[at..at + |AttributeBytes(a).value|] == AttributeBytes(a).value
    ensures PrintedAt(data, at, a)
  {
    hide PaddedValue;
    WordsFit(a.value);
    var bytes := AttributeBytes(a).value;
    assert forall k :: 0 <= k < |bytes| ==> data[at + k] == bytes[k] by {
      var part := data[at..at + |bytes|];
      assert forall k :: 0 <= k < |bytes| ==> data[at + k] == part[k];
    }
    assert forall k :: 0 <= k < |bytes| - 4 ==> bytes[k + 4] == PaddedValue(a.value)[k];
    forall k | at + 4 + |a.value| <= k < at + |bytes|
      ensures data[k] == 0
    {
      assert data[at + (k - at)] == bytes[k - at] == PaddedValue(a.value)[k - at - 4];
    }
    assert data[at + 4..at + 4 + |a.value|] == bytes[4..4 + |a.value|] == PaddedValue(a.value)[..|a.value|];
  }
}
