/**
 * The layers a TPDU travels in: the RIL's hex PDU and RP-DATA (section 7.3.1 of
 * 3GPP TS 24.011), and the trip of a message through all of them.
 */
module RpData {
  import opened Bits
  import opened Python
  import opened SmsAddress
  import opened SmsTpdu
  import opened Wrappers
  import Gsm7

  // ---- RP-DATA ------------------------------------------------------------

  const RP_DATA_MO := 0
  const RP_DATA_MT := 1

  /** RP message types: the codes 0 to 5. */
  type MessageType = x: int | 0 <= x <= 5

  datatype RpData = RpData(
    msgType: MessageType,
    reference: nat,
    originator: seq<byte>,
    destination: seq<byte>,
    tpdu: seq<byte>)

  /** A length octet and the octets it counts. */
  function LengthPrefixed(field: seq<byte>): seq<byte>
    requires |field| <= 255
  {
    [|field|] + field
  }

  function RpBytes(m: RpData): Result<seq<byte>> {
    if |m.originator| > 255 || |m.destination| > 255 || |m.tpdu| > 255 then Err
    else Ok([m.msgType, m.reference % 256] + LengthPrefixed(m.originator)
            + LengthPrefixed(m.destination) + LengthPrefixed(m.tpdu))
  }

  /** A length-prefixed field at `offset`, cut short if the data ends, and the offset its length implies. */
  function ParseField(data: seq<byte>, offset: nat): Result<(seq<byte>, nat)> {
    if offset >= |data| then Err
    else
      var end := offset + 1 + data[offset] as int;
      Ok((Slice(data, offset + 1, end), end))
  }

  function ParseRp(data: seq<byte>): Result<RpData> {
    if |data| < 2 || data[0] > 5 then Err
    else
      match ParseField(data, 2)
      case Err => Err
      case Ok((originator, o)) =>
        match ParseField(data, o)
        case Err => Err
        case Ok((destination, d)) =>
          match ParseField(data, d)
          case Err => Err
          case Ok((tpdu, _)) => Ok(RpData(data[0], data[1], originator, destination, tpdu))
  }

  method RpToBytes(m: RpData) returns (r: Result<seq<byte>>)
    ensures r == RpBytes(m)
  {
    var result: seq<byte> := [m.msgType, m.reference % 256];
    if |m.originator| > 255 || |m.destination| > 255 || |m.tpdu| > 255 {
      return Err;
    }
    assert LengthPrefixed([]) == [0];
    if m.originator != [] {
      result := result + ([|m.originator|] + m.originator);
    } else {
      result := result + [0];
    }
    if m.destination != [] {
      result := result + ([|m.destination|] + m.destination);
    } else {
      result := result + [0];
    }
    r := Ok(result + ([|m.tpdu|] + m.tpdu));
  }

  method ReadField(data: seq<byte>, start: nat) returns (r: Result<(seq<byte>, nat)>)
    ensures r == ParseField(data, start)
  {
    var offset := start;
    if offset >= |data| {
      return Err;
    }
    var n: nat := data[offset];
    offset := offset + 1;
    var field := if n > 0 then Slice(data, offset, offset + n) else [];
    offset := offset + n;
    r := Ok((field, offset));
  }

  method RpFromBytes(data: seq<byte>) returns (r: Result<RpData>)
    ensures r == ParseRp(data)
  {
    hide ParseField;
    if |data| < 2 || data[0] > 5 {
      return Err;
    }
    var originator := ReadField(data, 2);
    if originator.Err? {
      return Err;
    }
    var destination := ReadField(data, originator.value.1);
    if destination.Err? {
      return Err;
    }
    var tpdu := ReadField(data, destination.value.1);
    if tpdu.Err? {
      return Err;
    }
    r := Ok(RpData(data[0], data[1], originator.value.0, destination.value.0, tpdu.value.0));
  }

  lemma FieldRoundTrip(pre: seq<byte>, field: seq<byte>, post: seq<byte>, data: seq<byte>)
    requires |field| <= 255 && data == pre + LengthPrefixed(field) + post
    ensures ParseField(data, |pre|) == Ok((field, |pre| + 1 + |field|))
  {
    assert data[|pre|] == |field|;
    assert data == (pre + [|field|]) + field + post;
    SliceMiddle(pre + [|field|], field, post);
  }

  lemma RpRoundTrip(m: RpData)
    requires RpBytes(m).Ok?
    ensures ParseRp(RpBytes(m).value) == Ok(m.(reference := m.reference % 256))
  {
    hide ParseField;
    var head: seq<byte> := [m.msgType, m.reference % 256];
    var o, d, t := LengthPrefixed(m.originator), LengthPrefixed(m.destination), LengthPrefixed(m.tpdu);
    var data := RpBytes(m).value;
    assert data == head + o + (d + t) == (head + o) + d + t == (head + o + d) + t + [];
    FieldRoundTrip(head, m.originator, d + t, data);
    FieldRoundTrip(head + o, m.destination, t, data);
    FieldRoundTrip(head + o + d, m.tpdu, [], data);
  }

  /** An RP address for a service centre number: length, type 0x91, BCD digits. */
  function SmscAddress(smsc: string): Result<seq<byte>> {
    var digits := WithoutPlus(smsc);
    if smsc == "" then Ok([])
    else if !AllDigits(digits) || |Bcd(digits)| + 1 > 255 then Err
    else Ok([|Bcd(digits)| + 1, 0x91] + Bcd(digits))
  }

  function WrapMo(tpdu: seq<byte>, reference: nat, smsc: string): Result<RpData> {
    match SmscAddress(smsc)
    case Err => Err
    case Ok(address) => Ok(RpData(RP_DATA_MO, reference, [], address, tpdu))
  }

  function WrapMt(tpdu: seq<byte>, reference: nat, smsc: string): Result<RpData> {
    match SmscAddress(smsc)
    case Err => Err
    case Ok(address) => Ok(RpData(RP_DATA_MT, reference, address, [], tpdu))
  }

  // ---- The RIL's hex PDU --------------------------------------------------

  function HexChar(d: nat): (c: char)
    requires d < 16
  {
    if d < 10 then (d + '0' as int) as char else (d - 10 + 'A' as int) as char
  }

  function HexValue(c: char): (r: Option<nat>)
    ensures r.Some? ==> r.value < 16
  {
    if '0' <= c <= '9' then Some(c as int - '0' as int)
    else if 'A' <= c <= 'F' then Some(c as int - 'A' as int + 10)
    else if 'a' <= c <= 'f' then Some(c as int - 'a' as int + 10)
    else None
  }

  /** `bs.hex().upper()` */
  function HexUpper(bs: seq<byte>): string {
    if bs == [] then "" else [HexChar(bs[0] / 16), HexChar(bs[0] % 16)] + HexUpper(bs[1..])
  }

  predicate AsciiSpace(c: char) {
    c == ' ' || '\U{9}' <= c <= '\U{D}'
  }

  /** `bytes.fromhex(s)`: pairs of hex digits, white space allowed between pairs. */
  function FromHex(s: string): Result<seq<byte>> {
    if s == "" then Ok([])
    else if AsciiSpace(s[0]) then FromHex(s[1..])
    else if |s| < 2 || HexValue(s[0]).None? || HexValue(s[1]).None? then Err
    else
      match FromHex(s[2..])
      case Err => Err
      case Ok(rest) => Ok([16 * HexValue(s[0]).value + HexValue(s[1]).value] + rest)
  }

  lemma HexDigit(d: nat)
    requires d < 16
    ensures HexValue(HexChar(d)) == Some(d) && !AsciiSpace(HexChar(d))
  {
  }

  lemma HexPair(h: nat, l: nat, rest: string)
    requires h < 16 && l < 16 && FromHex(rest).Ok?
    ensures FromHex([HexChar(h), HexChar(l)] + rest) == Ok([16 * h + l] + FromHex(rest).value)
  {
    hide HexValue, HexChar, AsciiSpace;
    HexDigit(h);
    HexDigit(l);
    var s := [HexChar(h), HexChar(l)] + rest;
    assert s[0] == HexChar(h) && s[1] == HexChar(l) && s[2..] == rest;
  }

  lemma {:induction false} HexRoundTrip(bs: seq<byte>)
    ensures FromHex(HexUpper(bs)) == Ok(bs)
  {
    hide FromHex;
    if bs == [] {
      HexNothing();
    } else {
      var h, l := bs[0] / 16, bs[0] % 16;
      assert 16 * h + l == bs[0];
      HexRoundTrip(bs[1..]);
      HexPair(h, l, HexUpper(bs[1..]));
      assert bs == [bs[0]] + bs[1..];
    }
  }

  lemma HexNothing()
    ensures FromHex("") == Ok([])
  {
  }

  function BuildPduForRil(tpdu: seq<byte>, smsc: seq<byte>): Result<string> {
    if |smsc| > 255 then Err else Ok(HexUpper([|smsc|] + smsc + tpdu))
  }

  function ParsePduFromRil(hexPdu: string): Result<(seq<byte>, seq<byte>)> {
    match FromHex(hexPdu)
    case Err => Err
    case Ok(raw) =>
      if raw == [] then Err
      else
        var n: nat := raw[0];
        Ok((if n > 0 then Slice(raw, 1, 1 + n) else [], Slice(raw, 1 + n, |raw|)))
  }

  lemma RilRoundTrip(tpdu: seq<byte>, smsc: seq<byte>)
    requires |smsc| <= 255
    ensures ParsePduFromRil(BuildPduForRil(tpdu, smsc).value) == Ok((smsc, tpdu))
  {
    var raw := [|smsc|] + smsc + tpdu;
    HexRoundTrip(raw);
    SliceMiddle([|smsc|], smsc, tpdu);
    assert Slice(raw, 1 + |smsc|, |raw|) == tpdu;
  }

  // ---- The whole stack ----------------------------------------------------

  /** What a TPDU is after the RIL's hex PDU. */
  function ThroughRil(tpdu: seq<byte>, smsc: seq<byte>): Result<seq<byte>> {
    match BuildPduForRil(tpdu, smsc)
    case Err => Err
    case Ok(hexPdu) =>
      match ParsePduFromRil(hexPdu)
      case Err => Err
      case Ok((_, inner)) => Ok(inner)
  }

  /** What a TPDU is after an RP-DATA message. */
  function ThroughRp(rp: Result<RpData>): Result<seq<byte>> {
    match rp
    case Err => Err
    case Ok(sent) =>
      match RpBytes(sent)
      case Err => Err
      case Ok(body) =>
        match ParseRp(body)
        case Err => Err
        case Ok(received) => Ok(received.tpdu)
  }

  /** From the phone to the network: hex PDU, then RP-DATA. */
  function Upwards(tpdu: seq<byte>, smsc: seq<byte>, reference: nat, centre: string): Result<seq<byte>> {
    match ThroughRil(tpdu, smsc)
    case Err => Err
    case Ok(inner) => ThroughRp(WrapMo(inner, reference, centre))
  }

  /** From the network to the phone: RP-DATA, then hex PDU. */
  function Downwards(tpdu: seq<byte>, smsc: seq<byte>, reference: nat, centre: string): Result<seq<byte>> {
    match ThroughRp(WrapMt(tpdu, reference, centre))
    case Err => Err
    case Ok(inner) => ThroughRil(inner, smsc)
  }

  lemma LayersRoundTrip(tpdu: seq<byte>, smsc: seq<byte>, reference: nat, centre: string)
    requires |smsc| <= 255 && |tpdu| <= 255 && SmscAddress(centre).Ok? && |SmscAddress(centre).value| <= 255
    ensures Upwards(tpdu, smsc, reference, centre) == Ok(tpdu)
    ensures Downwards(tpdu, smsc, reference, centre) == Ok(tpdu)
  {
    hide HexUpper, FromHex, Bcd, ParseRp;
    RilRoundTrip(tpdu, smsc);
    RpRoundTrip(WrapMo(tpdu, reference, centre).value);
    RpRoundTrip(WrapMt(tpdu, reference, centre).value);
  }

  /**
   * A text message composed in Android reaches the network as it was composed, if
   * and only if its address survives: SUBMIT octets, hex PDU, RP-DATA and back.
   */
  lemma SubmitStack(m: Submit, smsc: seq<byte>, reference: nat, centre: string)
    requires m.userData == [] && !m.dcs.EIGHT_BIT?
    requires SubmitBytes(m).Ok? && |SubmitBytes(m).value| <= 255
    requires |smsc| <= 255 && SmscAddress(centre).Ok? && |SmscAddress(centre).value| <= 255
    ensures var wire := Upwards(SubmitBytes(m).value, smsc, reference, centre);
            && wire.Ok?
            && (ParseSubmit(wire.value)
                == Ok(m.(messageRef := m.messageRef % 256, destination := Received(m.destination),
                         userData := UserDataFor(m.dcs, m.text, []),
                         text := if m.dcs.UCS2? then m.text else Gsm7.Clean(m.text)))
                <==> Survives(m.destination))
  {
    hide SubmitBytes, ParseSubmit, UserDataFor, DecodedText, Survives, Upwards;
    LayersRoundTrip(SubmitBytes(m).value, smsc, reference, centre);
    SubmitRoundTrip(m);
    SubmitTextArrives(m);
  }

  /** The same for a message the network delivers to Android: DELIVER octets, RP-DATA, hex PDU and back. */
  lemma DeliverStack(m: Deliver, smsc: seq<byte>, reference: nat, centre: string)
    requires m.userData == [] && !m.dcs.EIGHT_BIT?
    requires DeliverBytes(m).Ok? && |DeliverBytes(m).value| <= 255
    requires |smsc| <= 255 && SmscAddress(centre).Ok? && |SmscAddress(centre).value| <= 255
    ensures var wire := Downwards(DeliverBytes(m).value, smsc, reference, centre);
            && wire.Ok?
            && (ParseDeliver(wire.value)
                == Ok(m.(originator := Received(m.originator), timestamp := SentTimestamp(m),
                         userData := UserDataFor(m.dcs, m.text, []),
                         text := if m.dcs.UCS2? then m.text else Gsm7.Clean(m.text)))
                <==> Survives(m.originator))
  {
    hide DeliverBytes, ParseDeliver, UserDataFor, DecodedText, Survives, Downwards;
    LayersRoundTrip(DeliverBytes(m).value, smsc, reference, centre);
    DeliverRoundTrip(m);
    DeliverTextArrives(m);
  }
}
