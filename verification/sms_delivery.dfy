/**
 * A delivered message on its way to the phone: RP-DATA from the network is taken
 * apart, and its sender and text are put into a new SMS-DELIVER for Android.
 */
module SmsDelivery {
  import opened Bits
  import opened Gsm7
  import opened Multipart
  import opened RpData
  import opened SmsAddress
  import opened SmsTpdu
  import opened Wrappers

  /** The sender's number, with a '+' when it is international */
  function Sender(a: Address): string {
    if a.ton == 1 then "+" + a.number else a.number
  }

  /** `SMSDeliver.create`, with the time given */
  function Announced(from: string, text: string, stamp: seq<byte>): Deliver {
    Deliver(International(from), 0, GSM_7BIT, stamp, [], text, true, false, false, false)
  }

  /** The body of a SIP MESSAGE to the hex PDU that Android gets */
  function Relay(body: seq<byte>, stamp: seq<byte>): Result<string> {
    match ParseRp(body)
    case Err => Err
    case Ok(rp) =>
      if rp.msgType != RP_DATA_MT && rp.msgType != RP_DATA_MO then Err
      else
        match ParseDeliver(rp.tpdu)
        case Err => Err
        case Ok(d) =>
          match DeliverBytes(Announced(Sender(d.originator), d.text, stamp))
          case Err => Err
          case Ok(tpdu) => BuildPduForRil(tpdu, [])
  }

  lemma {:induction false} DigitsPlain(digits: string)
    requires AllDigits(digits)
    ensures WithoutPlus(digits) == digits && LstripPlus(digits) == digits && LstripPlus("+" + digits) == digits
  {
    assert ("+" + digits)[1..] == digits;
    if digits != "" {
      assert digits == [digits[0]] + digits[1..];
      DigitsPlain(digits[1..]);
    }
  }

  /** Cleaned text has only characters of the alphabet and '?'. */
  lemma CleanTwice(text: string)
    ensures Clean(Clean(text)) == Clean(text)
  {
    hide Code, Gsm7Basic;
  }

  lemma ShortText(m: Deliver)
    requires m.userData == [] && !m.dcs.EIGHT_BIT? && DeliverBytes(m).Ok?
    ensures |m.text| <= 255
  {
    hide DeliverFlags, TpduOctets;
    Utf16Length(m.text);
  }

  lemma {:induction false} Utf16Length(text: string)
    ensures |Utf16.Encode(text)| >= 2 * |text|
  {
    if text != "" {
      Utf16Length(text[1..]);
    }
  }

  lemma AnnouncedPrints(digits: string, text: string, stamp: seq<byte>, plus: string)
    requires AllDigits(digits) && |digits| <= 255 && |text| <= 255 && |stamp| == 7 && (plus == "" || plus == "+")
    ensures var m := Announced(plus + digits, text, stamp);
            && m.originator == Address(digits, 1, 1) && DeliverBytes(m).Ok? && Received(m.originator) == m.originator
  {
    hide DeliverFlags, TpduOctets, Bcd, Packed;
    DigitsPlain(digits);
    assert "" + digits == digits;
  }

  /**
   * Whatever text and numeric sender the network delivers, Android reads the sender's
   * digits, always as an international number, and the text in the GSM alphabet.
   */
  lemma PhoneReads(m: Deliver, reference: nat, centre: string, stamp: seq<byte>)
    requires m.userData == [] && !m.dcs.EIGHT_BIT? && m.originator.ton != ALPHANUMERIC
    requires DeliverBytes(m).Ok? && |DeliverBytes(m).value| <= 255 && |stamp| == 7
    requires SmscAddress(centre).Ok? && |SmscAddress(centre).value| <= 255
    ensures var body := RpBytes(WrapMt(DeliverBytes(m).value, reference, centre).value).value;
            var shown := Deliver(Address(WithoutPlus(m.originator.number), 1, 1), 0, GSM_7BIT, stamp,
                                 UserDataFor(GSM_7BIT, Clean(m.text), []), Clean(m.text), true, false, false, false);
            && Relay(body, stamp).Ok?
            && ParsePduFromRil(Relay(body, stamp).value).Ok?
            && ParseDeliver(ParsePduFromRil(Relay(body, stamp).value).value.1) == Ok(shown)
  {
    hide DeliverBytes, ParseDeliver, ParseRp, RpBytes, UserDataFor, DecodedText, SmscAddress, BuildPduForRil, ParsePduFromRil,
         Clean, AllDigits, WithoutPlus, Address.ToBytes;
    var rp := WrapMt(DeliverBytes(m).value, reference, centre).value;
    RpPrints(m, reference, centre);
    RpRoundTrip(rp);
    DeliverRoundTrip(m);
    DeliverTextArrives(m);
    var d := ReceivedDeliver(m);
    var digits := WithoutPlus(m.originator.number);
    NumericSender(m);
    ShortText(m);
    var plus := if m.originator.ton == 1 then "+" else "";
    assert plus + digits == Sender(d.originator) by {
      assert "" + digits == digits;
    }
    AnnouncedPrints(digits, d.text, stamp, plus);
    var shown := Announced(Sender(d.originator), d.text, stamp);
    RilRoundTrip(DeliverBytes(shown).value, []);
    DeliverRoundTrip(shown);
    DeliverTextArrives(shown);
    CleanTwice(m.text);
    CleanLength(m.text);
    SameUserData(m.text);
    BuildsOk(DeliverBytes(shown).value);
  }

  lemma CleanLength(text: string)
    ensures |Clean(text)| == |text|
  {
  }

  /** Packing sees the cleaned text only. */
  lemma SameUserData(text: string)
    ensures UserDataFor(GSM_7BIT, Clean(text), []) == UserDataFor(GSM_7BIT, text, [])
  {
    hide Code, Packed;
    assert Septets(Clean(text)) == Septets(text);
    PackedFrom(Clean(text), text);
  }

  lemma PackedFrom(a: string, b: string)
    requires Septets(a) == Septets(b)
    ensures Packed(a) == Packed(b)
  {
  }

  lemma BuildsOk(tpdu: seq<byte>)
    ensures BuildPduForRil(tpdu, []).Ok?
  {
  }

  lemma NumericSender(m: Deliver)
    requires m.originator.ton != ALPHANUMERIC && DeliverBytes(m).Ok?
    ensures AllDigits(WithoutPlus(m.originator.number)) && |WithoutPlus(m.originator.number)| <= 255
  {
    hide DeliverFlags, TpduOctets, UserDataFor, AllDigits, WithoutPlus;
  }

  lemma RpPrints(m: Deliver, reference: nat, centre: string)
    requires DeliverBytes(m).Ok? && |DeliverBytes(m).value| <= 255
    requires SmscAddress(centre).Ok? && |SmscAddress(centre).value| <= 255
    ensures var rp := WrapMt(DeliverBytes(m).value, reference, centre);
            rp.Ok? && RpBytes(rp.value).Ok? && rp.value.msgType == RP_DATA_MT && rp.value.tpdu == DeliverBytes(m).value
  {
    hide DeliverBytes, SmscAddress;
  }
}
