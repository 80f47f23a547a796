/**
 * The octets of the SMS stack, written out: which field stands where, with what
 * weight, as sections 9.1.2 and 9.2 of 3GPP TS 23.040 and section 6.2.1 of 3GPP TS
 * 23.038 have them.
 */
module SmsLayout {
  import opened Bits
  import opened Flags
  import opened Gsm7
  import opened Multipart
  import opened RpData
  import opened SmsAddress
  import opened SmsTpdu
  import opened Wrappers
  import Utf16

  // ---- Characters ---------------------------------------------------------

  predicate GsmAscii(c: char) {
    || 'A' <= c <= 'Z' || 'a' <= c <= 'z' || ('\U{20}' <= c <= '?' && c != '$')
  }

  /** Letters, digits and most punctuation have their ASCII codes; the commercial at is 0, the dollar sign 2. */
  lemma AlphabetAscii(c: char)
    requires GsmAscii(c)
    ensures Gsm7Basic(c as int) == c
  {
    hide Gsm7Row;
    var code: nat := c as int;
    var row, col := code / 16, code % 16;
    if row == 2 || row == 3 {
      Punctuation(row, col);
    } else if row == 4 || row == 5 {
      Capitals(row, col);
    } else {
      Smalls(row, col);
    }
  }

  lemma Punctuation(row: nat, col: nat)
    requires (row == 2 || row == 3) && col < 16 && !(row == 2 && col == 4)
    ensures Gsm7Row(row)[col] as int == 16 * row + col
  {
  }

  lemma Capitals(row: nat, col: nat)
    requires (row == 4 && 1 <= col < 16) || (row == 5 && col <= 10)
    ensures Gsm7Row(row)[col] as int == 16 * row + col
  {
  }

  lemma Smalls(row: nat, col: nat)
    requires (row == 6 && 1 <= col < 16) || (row == 7 && col <= 10)
    ensures Gsm7Row(row)[col] as int == 16 * row + col
  {
  }

  lemma AlphabetOthers()
    ensures Gsm7Basic(0) == '@' && Gsm7Basic(2) == '$' && Gsm7Basic(10) == '\n' && Gsm7Basic(13) == '\r' && Gsm7Basic(17) == '_'
  {
  }

  /** UCS-2 puts the high octet first; characters beyond it are surrogate pairs. */
  lemma Utf16Units(c: char)
    ensures var bs, v := Utf16.EncodeChar(c), c as int;
            if v < 0x1_0000 then |bs| == 2 && 256 * bs[0] as int + bs[1] as int == v
            else
              && |bs| == 4
              && (256 * bs[0] as int + bs[1] as int - 0xD800) * 1024 + (256 * bs[2] as int + bs[3] as int - 0xDC00) + 0x1_0000 == v
              && 0xD800 <= 256 * bs[0] as int + bs[1] as int < 0xDC00 && 0xDC00 <= 256 * bs[2] as int + bs[3] as int < 0xE000
  {
  }

  // ---- Addresses ----------------------------------------------------------

  /** Octet k holds digit 2k in its low and digit 2k + 1 in its high half, or F behind an odd end. */
  lemma {:induction false} BcdAt(digits: string, k: nat)
    requires AllDigits(digits) && 2 * k < |digits|
    ensures k < |Bcd(digits)|
    ensures Bcd(digits)[k] as int == (digits[2 * k] as int - '0' as int)
                                     + 16 * if 2 * k + 1 < |digits| then digits[2 * k + 1] as int - '0' as int else 15
  {
    assert digits[0] in digits;
    if |digits| >= 2 {
      assert digits[1] in digits;
      if k > 0 {
        BcdAt(digits[2..], k - 1);
      }
    }
  }

  /** A numeric address: the count of digits, 1 and type and plan, and the semi-octets. */
  lemma AddressLayout(a: Address)
    requires a.ton != ALPHANUMERIC && a.ToBytes().Ok?
    ensures var bs, digits := a.ToBytes().value, WithoutPlus(a.number);
            && |bs| == 2 + (|digits| + 1) / 2 && bs[0] == |digits| && bs[1] == 128 + 16 * a.ton + a.npi % 16
            && bs[2..] == Bcd(digits)
  {
    hide ToaByte, Bcd, WithoutPlus;
    ToaIs(a);
    var digits := WithoutPlus(a.number);
    assert a.ToBytes().value == [|digits|, ToaByte(a)] + Bcd(digits);
  }

  lemma ToaIs(a: Address)
    ensures ToaByte(a) == 128 + 16 * a.ton + a.npi % 16
  {
  }

  /** Plus signs are all that is taken out of a number. */
  lemma {:induction false} WithoutPlusIs(s: string)
    ensures '+' !in WithoutPlus(s)
    ensures '+' !in s ==> WithoutPlus(s) == s
    ensures forall c :: c != '+' ==> multiset(WithoutPlus(s))[c] == multiset(s)[c]
  {
    if s != "" {
      WithoutPlusIs(s[1..]);
      assert s == [s[0]] + s[1..];
    }
  }

  // ---- Messages -----------------------------------------------------------

  function Weight(on: bool, w: nat): nat {
    if on then w else 0
  }

  /** The flag octets as sums of their bits' weights */
  lemma SubmitFlagWeights(m: Submit)
    ensures SubmitFlags(m) as int
            == 1 + Weight(m.rejectDuplicates, 4) + Weight(m.validityPeriod.Some?, 16) + Weight(m.statusReportRequest, 32)
               + Weight(m.userDataHeader, 64) + Weight(m.replyPath, 128)
  {
    hide AddFlag;
    var f1 := AddFlag(0x01, m.rejectDuplicates, 2);
    AddWeight(0x01, m.rejectDuplicates, 2, 4);
    AddWeight(f1, m.validityPeriod.Some?, 4, 16);
    var f2 := AddFlag(f1, m.validityPeriod.Some?, 4);
    AddWeight(f2, m.statusReportRequest, 5, 32);
    var f3 := AddFlag(f2, m.statusReportRequest, 5);
    AddWeight(f3, m.userDataHeader, 6, 64);
    var f4 := AddFlag(f3, m.userDataHeader, 6);
    AddWeight(f4, m.replyPath, 7, 128);
  }

  lemma DeliverFlagWeights(m: Deliver)
    ensures DeliverFlags(m) as int
            == Weight(!m.moreMessages, 4) + Weight(m.statusReportIndication, 32) + Weight(m.userDataHeader, 64) + Weight(m.replyPath, 128)
  {
    hide AddFlag;
    var f1 := AddFlag(0x00, !m.moreMessages, 2);
    AddWeight(0x00, !m.moreMessages, 2, 4);
    AddWeight(f1, m.statusReportIndication, 5, 32);
    var f2 := AddFlag(f1, m.statusReportIndication, 5);
    AddWeight(f2, m.userDataHeader, 6, 64);
    var f3 := AddFlag(f2, m.userDataHeader, 6);
    AddWeight(f3, m.replyPath, 7, 128);
  }

  /** Setting a bit above all that are set adds its weight. */
  lemma AddWeight(flags: byte, on: bool, j: nat, w: nat)
    requires w == Pow2(j) && j < 8 && flags < w
    ensures AddFlag(flags, on, j) as int == flags + Weight(on, w)
  {
    hide Or, Shl;
    ShlZero(j);
    if on {
      OrDisjoint(flags, 1, j);
      OneShifted(j);
    }
  }

  lemma {:induction false} OneShifted(j: nat)
    ensures Shl(1, j) == Pow2(j)
  {
    if j > 0 {
      OneShifted(j - 1);
    }
  }

  /** The data coding octets: 0, 4 and 8. */
  lemma CodingOctets()
    ensures GSM_7BIT.Octet() == 0 && EIGHT_BIT.Octet() == 4 && UCS2.Octet() == 8
  {
  }

  /**
   * A SUBMIT: flags, reference, address, protocol, coding, the validity period if there
   * is one, the length of the user data in septets or octets, and the user data.
   */
  lemma SubmitLayout(m: Submit)
    requires SubmitBytes(m).Ok?
    ensures var sent := UserDataFor(m.dcs, m.text, m.userData);
            var udl := if m.dcs.GSM_7BIT? then (if m.text != "" then |m.text| else |sent| * 8 / 7) else |sent|;
            && m.destination.ToBytes().Ok? && m.protocolId < 256 && udl < 256
            && (m.validityPeriod.Some? ==> m.validityPeriod.value < 256)
            && SubmitBytes(m).value
               == [SubmitFlags(m), m.messageRef % 256] + m.destination.ToBytes().value + [m.protocolId, m.dcs.Octet()]
                  + (if m.validityPeriod.Some? then [m.validityPeriod.value] else []) + [udl] + sent
            && sent == (if m.text == "" || m.userData != [] then m.userData
                        else match m.dcs case GSM_7BIT => Packed(m.text) case UCS2 => Utf16.Encode(m.text) case EIGHT_BIT => [])
  {
    hide SubmitFlags, Packed, Utf16.Encode, Address.ToBytes;
  }

  /** A DELIVER: flags, address, protocol, coding, seven octets of time, the length and the user data. */
  lemma DeliverLayout(m: Deliver)
    requires DeliverBytes(m).Ok?
    ensures var sent := UserDataFor(m.dcs, m.text, m.userData);
            var udl := if m.dcs.GSM_7BIT? then (if m.text != "" then |m.text| else |sent| * 8 / 7) else |sent|;
            && m.originator.ToBytes().Ok? && m.protocolId < 256 && udl < 256
            && DeliverBytes(m).value
               == [DeliverFlags(m)] + m.originator.ToBytes().value + [m.protocolId, m.dcs.Octet()]
                  + (if |m.timestamp| == 7 then m.timestamp else [0, 0, 0, 0, 0, 0, 0]) + [udl] + sent
            && sent == (if m.text == "" || m.userData != [] then m.userData
                        else match m.dcs case GSM_7BIT => Packed(m.text) case UCS2 => Utf16.Encode(m.text) case EIGHT_BIT => [])
  {
    hide DeliverFlags, Packed, Utf16.Encode, Address.ToBytes;
  }

  /** RP-DATA: type, reference, and originator, destination and TPDU each behind its length; the service centre is the destination on its way up and the originator on its way down. */
  lemma RpLayout(m: RpData)
    requires RpBytes(m).Ok?
    ensures |m.originator| < 256 && |m.destination| < 256 && |m.tpdu| < 256
    ensures RpBytes(m).value
            == [m.msgType, m.reference % 256] + [|m.originator|] + m.originator + [|m.destination|] + m.destination + [|m.tpdu|] + m.tpdu
  {
  }

  lemma RpDirections(tpdu: seq<byte>, reference: nat, centre: string)
    requires SmscAddress(centre).Ok?
    ensures WrapMo(tpdu, reference, centre) == Ok(RpData(0, reference, [], SmscAddress(centre).value, tpdu))
    ensures WrapMt(tpdu, reference, centre) == Ok(RpData(1, reference, SmscAddress(centre).value, [], tpdu))
  {
  }

  /** The hex PDU: two digits an octet, high half first, upper case. */
  lemma {:induction false} HexAt(bs: seq<byte>, k: nat)
    requires k < |bs|
    ensures |HexUpper(bs)| == 2 * |bs|
    ensures var digits := "0123456789ABCDEF";
            HexUpper(bs)[2 * k] == digits[bs[k] / 16] && HexUpper(bs)[2 * k + 1] == digits[bs[k] % 16]
  {
    hide HexChar;
    HexIs(bs[0] / 16);
    HexIs(bs[0] % 16);
    if k > 0 {
      HexAt(bs[1..], k - 1);
    } else if |bs| > 1 {
      HexAt(bs[1..], 0);
    }
  }

  lemma HexIs(d: nat)
    requires d < 16
    ensures HexChar(d) == "0123456789ABCDEF"[d]
  {
  }

  // ---- Sizes --------------------------------------------------------------

  /**
   * The text limits are the greatest whose septets, or units of two octets, fit the
   * 140 octets of user data, with six octets of header for a part.
   */
  lemma LimitsFit(dcs: Dcs)
    ensures var bits := if dcs.UCS2? then 16 else 7;
            && bits * SingleLimit(dcs) <= 8 * 140 < bits * (SingleLimit(dcs) + 1)
            && 8 * 6 + bits * ConcatLimit(dcs) <= 8 * 140 < 8 * 6 + bits * (ConcatLimit(dcs) + 1)
  {
  }
}
