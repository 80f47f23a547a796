/** Swapped-nibble digits and address fields of SMS TPDUs (3GPP TS 23.040). */
module SmsAddress {
  import opened Bits
  import opened Digits
  import opened Gsm7
  import opened Python
  import opened Wrappers

  // ---- BCD ----------------------------------------------------------------

  predicate IsDigit(c: char) {
    '0' <= c <= '9'
  }

  predicate AllDigits(s: string) {
    forall i :: 0 <= i < |s| ==> IsDigit(s[i])
  }

  function DigitValue(c: char): (d: nat)
    requires IsDigit(c)
    ensures d <= 9
  {
    c as int - '0' as int
  }

  function DigitChar(d: nat): (c: char)
    requires d <= 9
    ensures IsDigit(c) && DigitValue(c) == d
  {
    (d + '0' as int) as char
  }

  /** Two digits an octet, the first in the low nibble; 0xF fills an odd end. */
  function Bcd(digits: string): (bs: seq<byte>)
    requires AllDigits(digits)
    ensures |bs| == (|digits| + 1) / 2
  {
    if digits == "" then []
    else if |digits| == 1 then [0xF0 + DigitValue(digits[0])]
    else [16 * DigitValue(digits[1]) + DigitValue(digits[0])] + Bcd(digits[2..])
  }

  lemma NibblePair(high: nat, low: nat)
    requires high < 16 && low < 16
    ensures Or(Shl(high, 4), low) == 16 * high + low
  {
    Pow2Small();
    OrDisjoint(low, high, 4);
    OrCommutes(low, Shl(high, 4));
    ShlSmall(high);
  }

  /** `(high << 4) | low` */
  function Octet(high: nat, low: nat): (b: byte)
    requires high < 16 && low < 16
    ensures b == 16 * high + low
  {
    NibblePair(high, low);
    Or(Shl(high, 4), low)
  }

  /** The octet for the digits at i and i + 1. */
  lemma BcdStep(digits: string, i: nat)
    requires i < |digits| && AllDigits(digits)
    ensures Bcd(digits[i..])
         == (if i + 1 < |digits|
             then [16 * DigitValue(digits[i + 1]) + DigitValue(digits[i])] + Bcd(digits[i + 2..])
             else [0xF0 + DigitValue(digits[i])])
  {
    var s := digits[i..];
    assert s[0] == digits[i];
    if i + 1 < |digits| {
      assert s[1] == digits[i + 1] && s[2..] == digits[i + 2..];
    }
  }

  ghost predicate Encoding(digits: string, i: nat, result: seq<byte>) {
    && AllDigits(Take(digits, i))
    && (AllDigits(digits) ==> result + Bcd(digits[Bound(|digits|, i)..]) == Bcd(digits))
  }

  lemma EncodingDone(digits: string, i: nat, result: seq<byte>)
    requires Encoding(digits, i, result) && i >= |digits|
    ensures AllDigits(digits) && result == Bcd(digits)
  {
    assert Take(digits, i) == digits;
    assert digits[Bound(|digits|, i)..] == "";
  }

  lemma Associate(a: seq<byte>, b: seq<byte>, c: seq<byte>)
    ensures a + (b + c) == a + b + c
  {
  }

  lemma EncodingStep(digits: string, i: nat, result: seq<byte>, octet: byte)
    requires Encoding(digits, i, result) && i < |digits|
    requires IsDigit(digits[i]) && (i + 1 < |digits| ==> IsDigit(digits[i + 1]))
    requires octet == 16 * (if i + 1 < |digits| then DigitValue(digits[i + 1]) else 0x0F)
                    + DigitValue(digits[i])
    ensures Encoding(digits, i + 2, result + [octet])
  {
    hide Bcd, DigitValue;
    if AllDigits(digits) {
      BcdStep(digits, i);
      var rest := Bcd(digits[Bound(|digits|, i + 2)..]);
      assert Bcd(digits[i..]) == [octet] + rest;
      Associate(result, [octet], rest);
    }
  }

  method EncodeBcd(digits: string) returns (r: Result<seq<byte>>)
    ensures r == if AllDigits(digits) then Ok(Bcd(digits)) else Err
  {
    var result: seq<byte> := [];
    var i: nat := 0;
    while i < |digits|
      invariant Encoding(digits, i, result)
      decreases |digits| - i
    {
      if !IsDigit(digits[i]) || (i + 1 < |digits| && !IsDigit(digits[i + 1])) {
        return Err;
      }
      var low := DigitValue(digits[i]);
      var high := if i + 1 < |digits| then DigitValue(digits[i + 1]) else 0x0F;
      EncodingStep(digits, i, result, Octet(high, low));
      result := result + [Octet(high, low)];
      i := i + 2;
    }
    EncodingDone(digits, i, result);
    r := Ok(result);
  }

  function NibbleDigit(n: nat): string {
    if n <= 9 then [DigitChar(n)] else ""
  }

  /** The decimal digits in one octet, low nibble first. */
  function OctetDigits(b: byte): string {
    NibbleDigit(b % 16) + NibbleDigit(b / 16)
  }

  /** Every decimal digit of the data, in order. */
  function BcdDigits(data: seq<byte>): string {
    if data == [] then "" else OctetDigits(data[0]) + BcdDigits(data[1..])
  }

  lemma {:induction false} BcdDigitsAppend(data: seq<byte>, b: byte)
    ensures BcdDigits(data + [b]) == BcdDigits(data) + OctetDigits(b)
  {
    hide OctetDigits;
    var all := data + [b];
    if data == [] {
      assert all[1..] == [];
    } else {
      BcdDigitsAppend(data[1..], b);
      assert all[1..] == data[1..] + [b];
    }
  }

  lemma Nibbles(b: byte)
    ensures And(b, 0x0F) == b % 16 && And(Shr(b, 4), 0x0F) == b / 16
  {
    Pow2Small();
    AndMask(b, 4);
    AndMask(Shr(b, 4), 4);
    LowNibble(b, 4);
    LowNibble(Shr(b, 4), 4);
  }

  /** The loop's digits: all of them until there are enough, and then at least those. */
  ghost predicate Decoding(digits: string, all: string, numDigits: nat) {
    && Take(digits, numDigits) == Take(all, numDigits)
    && (|digits| < numDigits ==> digits == all)
  }

  lemma DecodingAppend(digits: string, all: string, numDigits: nat, more: string)
    requires Decoding(digits, all, numDigits)
    ensures Decoding(digits + more, all + more, numDigits)
    ensures |digits| >= numDigits ==> Decoding(digits, all + more, numDigits)
  {
    if |digits| >= numDigits {
      assert |all| >= numDigits;
      assert Take(digits + more, numDigits) == Take(digits, numDigits);
      assert Take(all + more, numDigits) == Take(all, numDigits);
    }
  }

  lemma SplitOctet(all: string, b: byte)
    ensures all + NibbleDigit(b % 16) + NibbleDigit(b / 16) == all + OctetDigits(b)
  {
    assert all + NibbleDigit(b % 16) + NibbleDigit(b / 16) == all + (NibbleDigit(b % 16) + NibbleDigit(b / 16));
  }

  method DecodeBcd(data: seq<byte>, numDigits: nat) returns (text: string)
    ensures text == Take(BcdDigits(data), numDigits)
  {
    hide And, Shr, Pow2, DigitChar, OctetDigits;
    var digits := "";
    for k := 0 to |data|
      invariant Decoding(digits, BcdDigits(data[..k]), numDigits)
    {
      TakeNext(data, k);
      BcdDigitsAppend(data[..k], data[k]);
      Nibbles(data[k]);
      ghost var all := BcdDigits(data[..k]);
      var low := And(data[k], 0x0F);
      var high := And(Shr(data[k], 4), 0x0F);
      DecodingAppend(digits, all, numDigits, NibbleDigit(low));
      ghost var all' := all + NibbleDigit(low);
      if low <= 9 {
        digits := digits + [DigitChar(low)];
      } else {
        assert digits + "" == digits;
      }
      DecodingAppend(digits, all', numDigits, NibbleDigit(high));
      SplitOctet(all, data[k]);
      if high <= 9 && |digits| < numDigits {
        digits := digits + [DigitChar(high)];
      } else if high > 9 {
        assert digits + "" == digits;
      }
    }
    TakeAll(data);
    text := Take(digits, numDigits);
  }

  lemma PairDigits(low: nat, high: nat)
    requires low <= 9 && high <= 9
    ensures OctetDigits(16 * high + low) == [DigitChar(low), DigitChar(high)]
    ensures OctetDigits(0xF0 + low) == [DigitChar(low)]
  {
  }

  lemma DigitInverse(c: char)
    requires IsDigit(c)
    ensures DigitChar(DigitValue(c)) == c
  {
  }

  /** Digit strings of either parity survive. */
  lemma {:induction false} BcdRoundTrip(digits: string)
    requires AllDigits(digits)
    ensures BcdDigits(Bcd(digits)) == digits
  {
    hide OctetDigits, DigitValue, DigitChar;
    if digits == "" {
    } else if |digits| == 1 {
      DigitInverse(digits[0]);
      PairDigits(DigitValue(digits[0]), 0);
    } else {
      BcdRoundTrip(digits[2..]);
      DigitInverse(digits[0]);
      DigitInverse(digits[1]);
      PairDigits(DigitValue(digits[0]), DigitValue(digits[1]));
      assert digits == [digits[0], digits[1]] + digits[2..];
    }
  }

  // ---- Address fields -----------------------------------------------------

  const ALPHANUMERIC := 5

  /** Type-of-number values; 7 is not one. */
  type Ton = x: int | 0 <= x <= 6

  datatype Address = Address(number: string, ton: Ton, npi: nat) {
    /** 1 | TON(3) | NPI(4) */
    function TypeOfAddress(): nat {
      Or(Or(0x80, Shl(ton, 4)), And(npi, 0x0F))
    }

    function ToBytes(): Result<seq<byte>> {
      if ton == ALPHANUMERIC then
        if |number| * 2 > 255 then Err
        else Ok([|number| * 2, ToaByte(this)] + Packed(number))
      else
        var digits := WithoutPlus(number);
        if !AllDigits(digits) || |digits| > 255 then Err
        else Ok([|digits|, ToaByte(this)] + Bcd(digits))
    }
  }

  function WithoutPlus(s: string): string {
    if s == "" then ""
    else (if s[0] == '+' then "" else [s[0]]) + WithoutPlus(s[1..])
  }

  function ToaByte(a: Address): (b: byte)
    ensures b == 128 + 16 * a.ton + a.npi % 16
  {
    ToaFields(a);
    a.TypeOfAddress()
  }

  lemma ToaFields(a: Address)
    ensures a.TypeOfAddress() == 128 + 16 * a.ton + a.npi % 16
  {
    var low := And(a.npi, 0x0F);
    Pow2Small();
    AndMask(a.npi, 4);
    LowNibble(a.npi, 4);
    assert low == a.npi % 16;
    ToaHigh(a.ton);
    var high := 8 + a.ton;
    NibblePair(high, low);
    ShlSmall(high);
  }

  lemma ToaHigh(ton: Ton)
    ensures Or(0x80, Shl(ton, 4)) == Shl(8 + ton, 4)
  {
    Pow2Small();
    ShlSmall(ton);
    ShlSmall(8 + ton);
    ShlSmall(8);
    OrDisjoint(Shl(ton, 4), 1, 7);
    ShlSmall(1);
    OrCommutes(Shl(ton, 4), Shl(1, 7));
  }

  /** `(toa >> 4) & 0x07` */
  function TonField(toa: byte): (t: nat)
    ensures t == toa / 16 % 8
  {
    Pow2Small();
    LowNibble(toa, 4);
    AndMask(Shr(toa, 4), 3);
    LowTriple(Shr(toa, 4), 3);
    And(Shr(toa, 4), 0x07)
  }

  /** `toa & 0x0F` */
  function NpiField(toa: byte): (n: nat)
    ensures n == toa % 16
  {
    Pow2Small();
    AndMask(toa, 4);
    LowNibble(toa, 4);
    And(toa, 0x0F)
  }

  /** The number an address field holds: packed characters or BCD digits. */
  function FieldNumber(ton: nat, field: seq<byte>, addrLen: nat): string {
    if ton == ALPHANUMERIC then Unpacked(field, addrLen * 4 / 7)
    else Take(BcdDigits(field), addrLen)
  }

  /** Reads an address at `offset`; the error is a short field or an unknown type of number. */
  function ParseAddress(data: seq<byte>, offset: nat): Result<(Address, nat)> {
    if offset + 1 >= |data| then Err
    else
      var addrLen: nat, ton, npi := data[offset], TonField(data[offset + 1]), NpiField(data[offset + 1]);
      var end := offset + 2 + (addrLen + 1) / 2;
      if ton > 6 then Err
      else Ok((Address(FieldNumber(ton, Slice(data, offset + 2, end), addrLen), ton, npi), end))
  }

  /** The address as the far end reads it: no '+' signs in digits, GSM characters in a name, a four-bit numbering plan. */
  function Received(a: Address): Address {
    a.(number := if a.ton == ALPHANUMERIC then Clean(a.number) else WithoutPlus(a.number), npi := a.npi % 16)
  }

  /** The length octet of a name is right for up to six characters. */
  predicate Survives(a: Address) {
    a.ton != ALPHANUMERIC || |a.number| <= 6
  }

  lemma ToaRoundTrip(a: Address)
    ensures TonField(ToaByte(a)) == a.ton && NpiField(ToaByte(a)) == a.npi % 16
  {
    hide TonField, NpiField, Address.TypeOfAddress;
    var npi := a.npi % 16;
    assert ToaByte(a) == 16 * (8 + a.ton) + npi;
  }

  lemma ParseAddressAt(data: seq<byte>, offset: nat, a: Address, addrLen: nat, field: seq<byte>, end: nat)
    requires offset + 1 < |data| && data[offset] == addrLen && data[offset + 1] == ToaByte(a)
    requires end == offset + 2 + (addrLen + 1) / 2 && Slice(data, offset + 2, end) == field
    ensures ParseAddress(data, offset)
         == Ok((Address(FieldNumber(a.ton, field, addrLen), a.ton, a.npi % 16), end))
  {
    ToaRoundTrip(a);
  }

  /** A digit address comes back from anywhere inside a TPDU, with the offset just past it. */
  lemma DigitAddressRoundTrip(a: Address, pre: seq<byte>, post: seq<byte>)
    requires a.ton != ALPHANUMERIC && a.ToBytes().Ok?
    ensures var bs := a.ToBytes().value;
            ParseAddress(pre + bs + post, |pre|) == Ok((Received(a), |pre| + |bs|))
  {
    hide ParseAddress, BcdDigits, WithoutPlus, ToaByte, Bcd;
    var digits := WithoutPlus(a.number);
    var head, bcd: seq<byte> := [|digits|, ToaByte(a)], Bcd(digits);
    assert a.ToBytes().value == head + bcd;
    var data := pre + (head + bcd) + post;
    assert data[|pre|] == |digits| && data[|pre| + 1] == ToaByte(a);
    assert data == (pre + head) + bcd + post;
    SliceMiddle(pre + head, bcd, post);
    ParseAddressAt(data, |pre|, a, |digits|, bcd, |pre + head + bcd|);
    BcdRoundTrip(digits);
    TakeAll(digits);
  }

  /** A name comes back from anywhere inside a TPDU if and only if it has at most six characters. */
  lemma AlphanumericAddressRoundTrip(a: Address, pre: seq<byte>, post: seq<byte>)
    requires a.ton == ALPHANUMERIC && a.ToBytes().Ok?
    ensures var bs := a.ToBytes().value;
            ParseAddress(pre + bs + post, |pre|) == Ok((Received(a), |pre| + |bs|)) <==> Survives(a)
    ensures !Survives(a) ==> ReadsLonger(a, pre + a.ToBytes().value + post, |pre|)
  {
    hide ParseAddress, ToaByte, Packed, Unpacked, PackedSize;
    var n, field := |a.number|, Packed(a.number);
    var head: seq<byte> := [n * 2, ToaByte(a)];
    var data, at := pre + (head + field) + post, |pre| + 2;
    assert a.ToBytes() == Ok(head + field);
    assert data[|pre|] == n * 2 && data[|pre| + 1] == ToaByte(a);
    ParseAddressAt(data, |pre|, a, n * 2, Slice(data, at, at + n), at + n);
    if n <= 6 {
      SmallPacked(n);
      assert data == (pre + head) + field + post;
      SliceMiddle(pre + head, field, post);
      GsmRoundTrip(a.number);
    } else {
      Longer(n);
    }
  }

  /** The parser finds a longer name than was sent. */
  ghost predicate ReadsLonger(a: Address, data: seq<byte>, offset: nat) {
    ParseAddress(data, offset).Ok? && |ParseAddress(data, offset).value.0.number| > |a.number|
  }

  lemma SmallPacked(n: nat)
    requires n <= 6
    ensures PackedSize(n) == n && n * 2 * 4 / 7 == n
  {
  }

  lemma Longer(n: nat)
    requires n > 6
    ensures n * 2 * 4 / 7 > n
  {
  }

  /** Any address comes back from anywhere inside a TPDU, with the offset just past it, exactly when it survives. */
  lemma AddressRoundTrip(a: Address, pre: seq<byte>, post: seq<byte>)
    requires a.ToBytes().Ok?
    ensures var bs := a.ToBytes().value;
            ParseAddress(pre + bs + post, |pre|) == Ok((Received(a), |pre| + |bs|)) <==> Survives(a)
    ensures !Survives(a) ==> ReadsLonger(a, pre + a.ToBytes().value + post, |pre|)
  {
    hide ParseAddress, Received, Address.ToBytes;
    if a.ton == ALPHANUMERIC {
      AlphanumericAddressRoundTrip(a, pre, post);
    } else {
      DigitAddressRoundTrip(a, pre, post);
    }
  }
}
