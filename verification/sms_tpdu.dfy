/**
 * SMS-SUBMIT and SMS-DELIVER TPDUs (sections 9.2.2.1 and 9.2.2.2 of 3GPP TS
 * 23.040): their octets, the parser, and what survives the trip.
 */
module SmsTpdu {
  import opened Bits
  import opened Flags
  import opened Gsm7
  import opened Python
  import opened SmsAddress
  import opened Wrappers
  import Utf16

  // ---- Data coding and user data ------------------------------------------

  datatype Dcs = GSM_7BIT | EIGHT_BIT | UCS2 {
    function Octet(): byte {
      match this
      case GSM_7BIT => 0x00
      case EIGHT_BIT => 0x04
      case UCS2 => 0x08
    }
  }

  function DcsOf(octet: byte): Option<Dcs> {
    var group := And(octet, 0x0C);
    if group == 0x00 then Some(GSM_7BIT)
    else if group == 0x04 then Some(EIGHT_BIT)
    else if group == 0x08 then Some(UCS2)
    else None
  }

  lemma DcsRoundTrip(dcs: Dcs)
    ensures DcsOf(dcs.Octet()) == Some(dcs)
  {
    match dcs
    case GSM_7BIT => assert And(0x00, 0x0C) == 0;
    case EIGHT_BIT => assert And(0x04, 0x0C) == 4;
    case UCS2 => assert And(0x08, 0x0C) == 8;
  }

  /** The user data sent: what was set already, or else the encoded text. */
  function UserDataFor(dcs: Dcs, text: string, userData: seq<byte>): seq<byte> {
    if text == "" || userData != [] then userData
    else match dcs
      case GSM_7BIT => Packed(text)
      case UCS2 => Utf16.Encode(text)
      case EIGHT_BIT => []
  }

  /** TP-UDL: septets for GSM 7-bit, octets otherwise. */
  function Udl(dcs: Dcs, text: string, userData: seq<byte>): nat {
    if dcs.GSM_7BIT? then (if text != "" then |text| else |userData| * 8 / 7) else |userData|
  }

  /** How many octets of user data a reader takes for a TP-UDL. */
  function UserDataSize(dcs: Dcs, udl: nat): nat {
    if dcs.GSM_7BIT? then (udl * 7 + 7) / 8 else udl
  }

  function DecodedText(dcs: Dcs, userData: seq<byte>, udl: nat): string {
    match dcs
    case UCS2 => Utf16.Decode(userData)
    case GSM_7BIT => Unpacked(userData, udl)
    case EIGHT_BIT => ""
  }

  /** TP-UDL at `offset`, then the user data and its text. */
  function ParseUserData(data: seq<byte>, offset: nat, dcs: Dcs): Result<(seq<byte>, string)> {
    if offset >= |data| then Err
    else
      var udl: nat := data[offset];
      var userData := Slice(data, offset + 1, offset + 1 + UserDataSize(dcs, udl));
      Ok((userData, DecodedText(dcs, userData, udl)))
  }

  lemma NoUserData(data: seq<byte>, offset: nat, dcs: Dcs)
    requires offset >= |data|
    ensures ParseUserData(data, offset, dcs).Err?
  {
  }

  method ReadUserData(data: seq<byte>, start: nat, dcs: Dcs) returns (r: Result<(seq<byte>, string)>)
    ensures r == ParseUserData(data, start, dcs)
  {
    var offset := start;
    if offset >= |data| {
      return Err;
    }
    var udl: nat := data[offset];
    offset := offset + 1;
    var userData := Slice(data, offset, offset + UserDataSize(dcs, udl));
    var text := "";
    if dcs.UCS2? {
      text := Utf16.Decode(userData);
    } else if dcs.GSM_7BIT? {
      text := DecodeGsm7(userData, udl);
    }
    r := Ok((userData, text));
  }

  // ---- Flag octets --------------------------------------------------------

  /** `(flags >> 3) & 0x03`: the validity-period format. */
  function VpFormat(flags: nat): (vpf: nat)
    ensures vpf == (if Bit(flags, 3) then 1 else 0) + (if Bit(flags, 4) then 2 else 0)
  {
    Pow2Small();
    AndMask(Shr(flags, 3), 2);
    LowPair(Shr(flags, 3), 2);
    BitShr(flags, 3, 0);
    BitShr(flags, 3, 1);
    And(Shr(flags, 3), 0x03)
  }

  // ---- SMS-SUBMIT ---------------------------------------------------------

  datatype Submit = Submit(
    messageRef: nat,
    destination: Address,
    protocolId: nat,
    dcs: Dcs,
    validityPeriod: Option<nat>,
    userData: seq<byte>,
    text: string,
    rejectDuplicates: bool,
    statusReportRequest: bool,
    userDataHeader: bool,
    replyPath: bool)

  function SubmitFlags(m: Submit): (flags: byte) {
    var f1 := AddFlag(0x01, m.rejectDuplicates, 2);
    var f2 := AddFlag(f1, m.validityPeriod.Some?, 4);
    var f3 := AddFlag(f2, m.statusReportRequest, 5);
    var f4 := AddFlag(f3, m.userDataHeader, 6);
    AddFlag(f4, m.replyPath, 7)
  }

  lemma SubmitFlagsRead(m: Submit)
    ensures var f := SubmitFlags(m);
            && (HasFlag(f, 2) <==> m.rejectDuplicates)
            && VpFormat(f) == (if m.validityPeriod.Some? then 2 else 0)
            && (HasFlag(f, 5) <==> m.statusReportRequest)
            && (HasFlag(f, 6) <==> m.userDataHeader)
            && (HasFlag(f, 7) <==> m.replyPath)
  {
    hide Bit, HasFlag, VpFormat, AddFlag;
    BitsOfOne();
  }

  predicate FitsOctet(v: Option<nat>) {
    v.Some? ==> v.value <= 255
  }

  function ValidityOctets(vp: Option<nat>): (octets: seq<byte>)
    requires FitsOctet(vp)
    ensures |octets| <= 1
  {
    if vp.Some? then [vp.value] else []
  }

  /** Setting a field before the user data fails: a bad address or an octet out of range. */
  predicate SubmitHeadFails(m: Submit) {
    m.destination.ToBytes().Err? || m.protocolId > 255 || !FitsOctet(m.validityPeriod)
  }

  /** The order both kinds of TPDU put their fields in. */
  function TpduOctets(head: seq<byte>, address: seq<byte>, pid: byte, dcs: byte, mid: seq<byte>,
                      udl: byte, userData: seq<byte>): seq<byte> {
    head + address + [pid, dcs] + mid + [udl] + userData
  }

  /** The octets of a SUBMIT; the error is a field that does not fit its octets. */
  function SubmitBytes(m: Submit): Result<seq<byte>> {
    var userData := UserDataFor(m.dcs, m.text, m.userData);
    var udl := Udl(m.dcs, m.text, userData);
    match m.destination.ToBytes()
    case Err => Err
    case Ok(address) =>
      if m.protocolId > 255 || !FitsOctet(m.validityPeriod) || udl > 255 then Err
      else Ok(TpduOctets([SubmitFlags(m), m.messageRef % 256], address, m.protocolId, m.dcs.Octet(),
                         ValidityOctets(m.validityPeriod), udl, userData))
  }

  function ParseSubmit(data: seq<byte>): Result<Submit> {
    if |data| < 2 then Err
    else
      match ParseAddress(data, 2)
      case Err => Err
      case Ok((destination, o)) =>
        if o + 1 >= |data| || DcsOf(data[o + 1]).None? then Err
        else
          var flags: nat := data[0];
          var vpf := VpFormat(flags);
          var u := o + 2 + (if vpf == 2 then 1 else if vpf == 0 then 0 else 7);
          var dcs := DcsOf(data[o + 1]).value;
          match ParseUserData(data, u, dcs)
          case Err => Err
          case Ok((userData, text)) =>
            Ok(Submit(data[1], destination, data[o], dcs,
                      if vpf == 2 then Some(data[o + 2]) else None, userData, text,
                      HasFlag(flags, 2), HasFlag(flags, 5),
                      HasFlag(flags, 6), HasFlag(flags, 7)))
  }

  /** The message as its receiver has it. */
  function ReceivedSubmit(m: Submit): Submit {
    var sent := UserDataFor(m.dcs, m.text, m.userData);
    var udl := Udl(m.dcs, m.text, sent);
    var userData := Take(sent, UserDataSize(m.dcs, udl));
    m.(messageRef := m.messageRef % 256, destination := Received(m.destination),
       userData := userData, text := DecodedText(m.dcs, userData, udl))
  }

  lemma ParseUserDataAt(data: seq<byte>, head: seq<byte>, dcs: Dcs, udl: byte, userData: seq<byte>)
    requires data == head + ([udl] + userData)
    ensures ParseUserData(data, |head|, dcs)
         == Ok((Take(userData, UserDataSize(dcs, udl)), DecodedText(dcs, Take(userData, UserDataSize(dcs, udl)), udl)))
  {
    hide DecodedText, UserDataSize;
    assert data[|head|] == udl;
    var u, n := |head| + 1, UserDataSize(dcs, udl);
    assert data[u..] == userData;
    assert Slice(data, u, u + n) == Take(userData, n);
  }

  /** The octets after an address: protocol, coding, some middle field, and user data. */
  lemma TailAt(pre: seq<byte>, pid: byte, dcs: Dcs, mid: seq<byte>, udl: byte, userData: seq<byte>, data: seq<byte>)
    requires data == pre + TpduTail(pid, dcs, mid, udl, userData)
    ensures |data| > |pre| + 2 + |mid|
    ensures data[|pre|] == pid && DcsOf(data[|pre| + 1]) == Some(dcs)
    ensures Slice(data, |pre| + 2, |pre| + 2 + |mid|) == mid
    ensures |mid| == 1 ==> data[|pre| + 2] == mid[0]
    ensures ParseUserData(data, |pre| + 2 + |mid|, dcs)
         == Ok((Take(userData, UserDataSize(dcs, udl)), DecodedText(dcs, Take(userData, UserDataSize(dcs, udl)), udl)))
  {
    hide DcsOf, ParseUserData;
    DcsRoundTrip(dcs);
    var codes := [pid, dcs.Octet()];
    assert data == (pre + codes) + mid + ([udl] + userData);
    SliceMiddle(pre + codes, mid, [udl] + userData);
    ParseUserDataAt(data, pre + codes + mid, dcs, udl, userData);
  }

  lemma ParseSubmitFrom(data: seq<byte>, destination: Address, o: nat, dcs: Dcs, mid: seq<byte>,
                        userData: seq<byte>, text: string)
    requires |data| >= 2 && ParseAddress(data, 2) == Ok((destination, o))
    requires o + 2 < |data| && DcsOf(data[o + 1]) == Some(dcs)
    requires VpFormat(data[0]) == (if mid == [] then 0 else 2)
    requires mid == [] || mid == [data[o + 2]]
    requires ParseUserData(data, o + 2 + |mid|, dcs) == Ok((userData, text))
    ensures ParseSubmit(data)
         == Ok(Submit(data[1], destination, data[o], dcs, if mid == [] then None else Some(mid[0]), userData, text,
                      HasFlag(data[0], 2), HasFlag(data[0], 5), HasFlag(data[0], 6), HasFlag(data[0], 7)))
  {
    hide HasFlag, VpFormat, ParseAddress, DcsOf, ParseUserData;
  }

  /** Whatever a SUBMIT serializes to is parsed back field by field, if and only if its address survives. */
  lemma SubmitRoundTrip(m: Submit)
    requires SubmitBytes(m).Ok?
    ensures ParseSubmit(SubmitBytes(m).value) == Ok(ReceivedSubmit(m)) <==> Survives(m.destination)
  {
    hide SubmitFlags, HasFlag, VpFormat, DecodedText, UserDataFor, Address.ToBytes, ParseAddress, ParseUserData, ParseSubmit, DcsOf, UserDataSize, Udl,
         Received, Survives;
    var sent := UserDataFor(m.dcs, m.text, m.userData);
    var udl: byte := Udl(m.dcs, m.text, sent);
    SubmitFlagsRead(m);
    var head: seq<byte> := [SubmitFlags(m), m.messageRef % 256];
    var addr := m.destination.ToBytes().value;
    var mid := ValidityOctets(m.validityPeriod);
    var tail := TpduTail(m.protocolId, m.dcs, mid, udl, sent);
    var data := head + addr + tail;
    assert SubmitBytes(m).value == data by {
      Regroup(head, addr, [m.protocolId, m.dcs.Octet()], mid, [udl], sent);
    }
    AddressRoundTrip(m.destination, head, tail);
    if Survives(m.destination) {
      TailAt(head + addr, m.protocolId, m.dcs, mid, udl, sent, data);
      var userData := Take(sent, UserDataSize(m.dcs, udl));
      ParseSubmitFrom(data, Received(m.destination), |head + addr|, m.dcs, mid,
                      userData, DecodedText(m.dcs, userData, udl));
    } else {
      SubmitNumber(data);
      ReceivedLength(m.destination);
    }
  }

  /** A parsed SUBMIT has the address that stands behind its first two octets. */
  lemma SubmitNumber(data: seq<byte>)
    ensures ParseSubmit(data).Ok? ==>
              ParseAddress(data, 2).Ok? && ParseSubmit(data).value.destination == ParseAddress(data, 2).value.0
  {
    hide HasFlag, VpFormat, ParseAddress, DcsOf, ParseUserData;
  }

  lemma ReceivedLength(a: Address)
    requires !Survives(a)
    ensures |Received(a).number| == |a.number|
  {
  }

  function TpduTail(pid: byte, dcs: Dcs, mid: seq<byte>, udl: byte, userData: seq<byte>): seq<byte> {
    [pid, dcs.Octet()] + (mid + ([udl] + userData))
  }

  lemma Regroup(a: seq<byte>, b: seq<byte>, c: seq<byte>, d: seq<byte>, e: seq<byte>, f: seq<byte>)
    ensures a + b + c + d + e + f == a + b + (c + (d + (e + f)))
  {
    assert a + b + c + d + e + f == a + b + c + d + (e + f);
  }

  /** Text that was set alone arrives, encoded either way. */
  lemma SubmitTextArrives(m: Submit)
    requires m.userData == [] && !m.dcs.EIGHT_BIT?
    ensures ReceivedSubmit(m).text == if m.dcs.UCS2? then m.text else Clean(m.text)
    ensures ReceivedSubmit(m).userData == UserDataFor(m.dcs, m.text, [])
  {
    TextArrives(m.dcs, m.text);
  }

  lemma TextArrives(dcs: Dcs, text: string)
    requires !dcs.EIGHT_BIT?
    ensures var sent := UserDataFor(dcs, text, []);
            var udl := Udl(dcs, text, sent);
            && Take(sent, UserDataSize(dcs, udl)) == sent
            && DecodedText(dcs, sent, udl) == if dcs.UCS2? then text else Clean(text)
  {
    GsmRoundTrip(text);
    Utf16.Utf16RoundTrip(text);
    var sent := UserDataFor(dcs, text, []);
    assert sent[..|sent|] == sent;
  }

  /**
   * User data set beforehand arrives whole exactly when TP-UDL covers it. Octet
   * counts always do; a septet count taken from the text does not cover a header
   * put in front of the packed text.
   */
  lemma SubmitUserDataArrives(m: Submit)
    ensures var sent := UserDataFor(m.dcs, m.text, m.userData);
            ReceivedSubmit(m).userData == sent
            <==> (m.dcs.GSM_7BIT? && m.text != "" ==> |sent| <= PackedSize(|m.text|))
  {
    var sent := UserDataFor(m.dcs, m.text, m.userData);
    var n := UserDataSize(m.dcs, Udl(m.dcs, m.text, sent));
    assert |sent| <= n ==> Take(sent, n) == sent;
  }

  /** The message object: serializing it stores the encoded user data in it. */
  class SmsSubmit {
    var messageRef: nat
    var destination: Address
    var protocolId: nat
    var dcs: Dcs
    var validityPeriod: Option<nat>
    var userData: seq<byte>
    var text: string
    var rejectDuplicates: bool
    var statusReportRequest: bool
    var userDataHeader: bool
    var replyPath: bool

    constructor (m: Submit)
      ensures View() == m
    {
      messageRef, destination, protocolId, dcs := m.messageRef, m.destination, m.protocolId, m.dcs;
      validityPeriod, userData, text := m.validityPeriod, m.userData, m.text;
      rejectDuplicates, statusReportRequest := m.rejectDuplicates, m.statusReportRequest;
      userDataHeader, replyPath := m.userDataHeader, m.replyPath;
    }

    ghost function View(): Submit
      reads this
    {
      Submit(messageRef, destination, protocolId, dcs, validityPeriod, userData, text,
             rejectDuplicates, statusReportRequest, userDataHeader, replyPath)
    }

    method ToBytes() returns (r: Result<seq<byte>>)
      modifies this`userData
      ensures r == SubmitBytes(old(View()))
      ensures userData == if SubmitHeadFails(old(View())) then old(userData)
                          else UserDataFor(dcs, text, old(userData))
    {
      hide Address.ToBytes, Utf16.Encode, Packed, Dcs.Octet, AddFlag;
      var flags: byte := AddFlag(0x01, rejectDuplicates, 2);
      flags := AddFlag(flags, validityPeriod.Some?, 4);
      flags := AddFlag(flags, statusReportRequest, 5);
      flags := AddFlag(flags, userDataHeader, 6);
      flags := AddFlag(flags, replyPath, 7);
      var result: seq<byte> := [flags, messageRef % 256];
      var address := destination.ToBytes();
      if address.Err? || protocolId > 255 {
        return Err;
      }
      result := result + address.value + [protocolId, dcs.Octet()];
      if validityPeriod.Some? {
        if validityPeriod.value > 255 {
          return Err;
        }
        result := result + [validityPeriod.value];
      } else {
        assert result + [] == result;
      }
      if text != "" && userData == [] {
        if dcs.UCS2? {
          userData := Utf16.Encode(text);
        } else if dcs.GSM_7BIT? {
          userData := EncodeGsm7(text);
        }
      }
      var udl := Udl(dcs, text, userData);
      if udl > 255 {
        return Err;
      }
      r := Ok(result + [udl] + userData);
    }

    static method FromBytes(data: seq<byte>) returns (r: Result<SmsSubmit>)
      ensures r.Ok? == ParseSubmit(data).Ok?
      ensures r.Ok? ==> fresh(r.value) && r.value.View() == ParseSubmit(data).value
    {
      var fields := ReadFields(data);
      if fields.Err? {
        return Err;
      }
      var msg := new SmsSubmit(fields.value);
      r := Ok(msg);
    }

    static method ReadFields(data: seq<byte>) returns (r: Result<Submit>)
      ensures r == ParseSubmit(data)
    {
      hide HasFlag, VpFormat, ParseAddress, DcsOf, ParseUserData;
      if |data| < 2 {
        return Err;
      }
      var offset: nat := 0;
      var flags := data[offset];
      offset := offset + 1;
      var vpf := VpFormat(flags);
      var messageRef := data[offset];
      offset := offset + 1;
      var address := ParseAddress(data, offset);
      if address.Err? {
        return Err;
      }
      offset := address.value.1;
      if offset + 1 >= |data| || DcsOf(data[offset + 1]).None? {
        return Err;
      }
      var protocolId := data[offset];
      var dcs := DcsOf(data[offset + 1]).value;
      offset := offset + 2;
      var validityPeriod: Option<nat> := None;
      if vpf == 2 {
        if offset >= |data| {
          NoUserData(data, offset + 1, dcs);
          return Err;
        }
        validityPeriod := Some(data[offset]);
        offset := offset + 1;
      } else if vpf != 0 {
        offset := offset + 7;
      }
      var body := ReadUserData(data, offset, dcs);
      if body.Err? {
        return Err;
      }
      r := Ok(Submit(messageRef, address.value.0, protocolId, dcs, validityPeriod, body.value.0, body.value.1,
                     HasFlag(flags, 2), HasFlag(flags, 5), HasFlag(flags, 6), HasFlag(flags, 7)));
    }
  }

  // ---- SMS-DELIVER --------------------------------------------------------

  datatype Deliver = Deliver(
    originator: Address,
    protocolId: nat,
    dcs: Dcs,
    timestamp: seq<byte>,
    userData: seq<byte>,
    text: string,
    moreMessages: bool,
    statusReportIndication: bool,
    userDataHeader: bool,
    replyPath: bool)

  function DeliverFlags(m: Deliver): (flags: byte) {
    var f1 := AddFlag(0x00, !m.moreMessages, 2);
    var f2 := AddFlag(f1, m.statusReportIndication, 5);
    var f3 := AddFlag(f2, m.userDataHeader, 6);
    AddFlag(f3, m.replyPath, 7)
  }

  lemma DeliverFlagsRead(m: Deliver)
    ensures var f := DeliverFlags(m);
            && (HasFlag(f, 2) <==> !m.moreMessages)
            && (HasFlag(f, 5) <==> m.statusReportIndication)
            && (HasFlag(f, 6) <==> m.userDataHeader)
            && (HasFlag(f, 7) <==> m.replyPath)
  {
    hide Bit, HasFlag, AddFlag;
    BitsOfOne();
  }

  const NO_TIMESTAMP: seq<byte> := [0, 0, 0, 0, 0, 0, 0]

  function SentTimestamp(m: Deliver): (t: seq<byte>)
    ensures |t| == 7
  {
    if |m.timestamp| == 7 then m.timestamp else NO_TIMESTAMP
  }

  predicate DeliverHeadFails(m: Deliver) {
    m.originator.ToBytes().Err? || m.protocolId > 255
  }

  function DeliverBytes(m: Deliver): Result<seq<byte>> {
    var userData := UserDataFor(m.dcs, m.text, m.userData);
    var udl := Udl(m.dcs, m.text, userData);
    match m.originator.ToBytes()
    case Err => Err
    case Ok(address) =>
      if m.protocolId > 255 || udl > 255 then Err
      else Ok(TpduOctets([DeliverFlags(m)], address, m.protocolId, m.dcs.Octet(), SentTimestamp(m), udl, userData))
  }

  function ParseDeliver(data: seq<byte>): Result<Deliver> {
    if |data| < 1 then Err
    else
      match ParseAddress(data, 1)
      case Err => Err
      case Ok((originator, o)) =>
        if o + 1 >= |data| || DcsOf(data[o + 1]).None? then Err
        else
          var flags: nat := data[0];
          var dcs := DcsOf(data[o + 1]).value;
          match ParseUserData(data, o + 9, dcs)
          case Err => Err
          case Ok((userData, text)) =>
            Ok(Deliver(originator, data[o], dcs, Slice(data, o + 2, o + 9), userData, text,
                       !HasFlag(flags, 2), HasFlag(flags, 5),
                       HasFlag(flags, 6), HasFlag(flags, 7)))
  }

  function ReceivedDeliver(m: Deliver): Deliver {
    var sent := UserDataFor(m.dcs, m.text, m.userData);
    var udl := Udl(m.dcs, m.text, sent);
    var userData := Take(sent, UserDataSize(m.dcs, udl));
    m.(originator := Received(m.originator), timestamp := SentTimestamp(m),
       userData := userData, text := DecodedText(m.dcs, userData, udl))
  }

  /** Whatever a DELIVER serializes to is parsed back field by field, if and only if its address survives. */
  lemma DeliverRoundTrip(m: Deliver)
    requires DeliverBytes(m).Ok?
    ensures ParseDeliver(DeliverBytes(m).value) == Ok(ReceivedDeliver(m)) <==> Survives(m.originator)
  {
    hide DeliverFlags, HasFlag, DecodedText, UserDataFor, Address.ToBytes, ParseAddress, ParseUserData, ParseDeliver, DcsOf, UserDataSize, Udl,
         Received, Survives;
    var sent := UserDataFor(m.dcs, m.text, m.userData);
    var udl: byte := Udl(m.dcs, m.text, sent);
    DeliverFlagsRead(m);
    var head: seq<byte> := [DeliverFlags(m)];
    var addr := m.originator.ToBytes().value;
    var mid := SentTimestamp(m);
    var tail := TpduTail(m.protocolId, m.dcs, mid, udl, sent);
    var data := head + addr + tail;
    assert DeliverBytes(m).value == data by {
      Regroup(head, addr, [m.protocolId, m.dcs.Octet()], mid, [udl], sent);
    }
    AddressRoundTrip(m.originator, head, tail);
    if Survives(m.originator) {
      TailAt(head + addr, m.protocolId, m.dcs, mid, udl, sent, data);
      ParseDeliverFrom(data, Received(m.originator), |head + addr|, m.dcs,
                       Take(sent, UserDataSize(m.dcs, udl)), ReceivedDeliver(m).text);
    } else {
      DeliverNumber(data);
      ReceivedLength(m.originator);
    }
  }

  /** A parsed DELIVER has the address that stands behind its first octet. */
  lemma DeliverNumber(data: seq<byte>)
    ensures ParseDeliver(data).Ok? ==>
              ParseAddress(data, 1).Ok? && ParseDeliver(data).value.originator == ParseAddress(data, 1).value.0
  {
    hide HasFlag, ParseAddress, DcsOf, ParseUserData;
  }

  lemma ParseDeliverFrom(data: seq<byte>, originator: Address, o: nat, dcs: Dcs, userData: seq<byte>, text: string)
    requires |data| >= 1 && ParseAddress(data, 1) == Ok((originator, o))
    requires o + 2 < |data| && DcsOf(data[o + 1]) == Some(dcs)
    requires ParseUserData(data, o + 9, dcs) == Ok((userData, text))
    ensures ParseDeliver(data)
         == Ok(Deliver(originator, data[o], dcs, Slice(data, o + 2, o + 9), userData, text,
                       !HasFlag(data[0], 2), HasFlag(data[0], 5), HasFlag(data[0], 6), HasFlag(data[0], 7)))
  {
    hide HasFlag, ParseAddress, DcsOf, ParseUserData;
  }

  lemma DeliverTextArrives(m: Deliver)
    requires m.userData == [] && !m.dcs.EIGHT_BIT?
    ensures ReceivedDeliver(m).text == if m.dcs.UCS2? then m.text else Clean(m.text)
    ensures ReceivedDeliver(m).userData == UserDataFor(m.dcs, m.text, [])
  {
    TextArrives(m.dcs, m.text);
  }

  /** The message object, as for SmsSubmit. */
  class SmsDeliver {
    var originator: Address
    var protocolId: nat
    var dcs: Dcs
    var timestamp: seq<byte>
    var userData: seq<byte>
    var text: string
    var moreMessages: bool
    var statusReportIndication: bool
    var userDataHeader: bool
    var replyPath: bool

    constructor (m: Deliver)
      ensures View() == m
    {
      originator, protocolId, dcs, timestamp := m.originator, m.protocolId, m.dcs, m.timestamp;
      userData, text := m.userData, m.text;
      moreMessages, statusReportIndication := m.moreMessages, m.statusReportIndication;
      userDataHeader, replyPath := m.userDataHeader, m.replyPath;
    }

    ghost function View(): Deliver
      reads this
    {
      Deliver(originator, protocolId, dcs, timestamp, userData, text,
              moreMessages, statusReportIndication, userDataHeader, replyPath)
    }

    method ToBytes() returns (r: Result<seq<byte>>)
      modifies this`userData
      ensures r == DeliverBytes(old(View()))
      ensures userData == if DeliverHeadFails(old(View())) then old(userData)
                          else UserDataFor(dcs, text, old(userData))
    {
      hide Address.ToBytes, Utf16.Encode, Packed, Dcs.Octet, AddFlag;
      var flags: byte := AddFlag(0x00, !moreMessages, 2);
      flags := AddFlag(flags, statusReportIndication, 5);
      flags := AddFlag(flags, userDataHeader, 6);
      flags := AddFlag(flags, replyPath, 7);
      var result: seq<byte> := [flags];
      var address := originator.ToBytes();
      if address.Err? || protocolId > 255 {
        return Err;
      }
      result := result + address.value + [protocolId, dcs.Octet()];
      result := result + (if |timestamp| == 7 then timestamp else NO_TIMESTAMP);
      if text != "" && userData == [] {
        if dcs.UCS2? {
          userData := Utf16.Encode(text);
        } else if dcs.GSM_7BIT? {
          userData := EncodeGsm7(text);
        }
      }
      var udl := Udl(dcs, text, userData);
      if udl > 255 {
        return Err;
      }
      r := Ok(result + [udl] + userData);
    }

    static method FromBytes(data: seq<byte>) returns (r: Result<SmsDeliver>)
      ensures r.Ok? == ParseDeliver(data).Ok?
      ensures r.Ok? ==> fresh(r.value) && r.value.View() == ParseDeliver(data).value
    {
      var fields := ReadFields(data);
      if fields.Err? {
        return Err;
      }
      var msg := new SmsDeliver(fields.value);
      r := Ok(msg);
    }

    static method ReadFields(data: seq<byte>) returns (r: Result<Deliver>)
      ensures r == ParseDeliver(data)
    {
      hide HasFlag, ParseAddress, DcsOf, DecodedText;
      if |data| < 1 {
        return Err;
      }
      var offset: nat := 0;
      var flags := data[offset];
      offset := offset + 1;
      var address := ParseAddress(data, offset);
      if address.Err? {
        return Err;
      }
      offset := address.value.1;
      if offset + 1 >= |data| || DcsOf(data[offset + 1]).None? {
        return Err;
      }
      var protocolId := data[offset];
      var dcs := DcsOf(data[offset + 1]).value;
      offset := offset + 2;
      var timestamp := Slice(data, offset, offset + 7);
      offset := offset + 7;
      var body := ReadUserData(data, offset, dcs);
      if body.Err? {
        return Err;
      }
      r := Ok(Deliver(address.value.0, protocolId, dcs, timestamp, body.value.0, body.value.1,
                      !HasFlag(flags, 2), HasFlag(flags, 5), HasFlag(flags, 6), HasFlag(flags, 7)));
    }
  }
}
