/**
 * The GSM 7-bit default alphabet and its packed form (3GPP TS 23.038): the
 * streaming septet packer, the whole-number unpacker, and their round trip.
 */
module Gsm7 {
  import opened Bits
  import opened Digits
  import opened Wrappers

  /** The alphabet, sixteen characters a row. */
  function Gsm7Row(row: nat): (chars: string)
    ensures |chars| == 16
  {
    match row
    case 0 => "@£$¥èéùìòÇ\nØø\rÅå"
    case 1 => "Δ_ΦΓΛΩΠΨΣΘΞ\U{1B}ÆæßÉ"
    case 2 => " !\"#¤%&'()*+,-./"
    case 3 => "0123456789:;<=>?"
    case 4 => "¡ABCDEFGHIJKLMNO"
    case 5 => "PQRSTUVWXYZÄÖÑÜÀ"
    case 6 => "¿abcdefghijklmno"
    case _ => "pqrstuvwxyzäöñüà"
  }

  function Gsm7Basic(code: nat): char {
    Gsm7Row(code / 16)[code % 16]
  }

  const ESC: char := '\U{1B}'

  /** The last of the first n positions that holds c: a dict built by enumeration. */
  function LastIndex(table: nat -> char, c: char, n: nat): (r: Option<nat>)
    ensures r.Some? ==> r.value < n && table(r.value) == c
    ensures r.None? ==> forall i: nat :: i < n ==> table(i) != c
  {
    if n == 0 then None
    else if table(n - 1) == c then Some(n - 1)
    else LastIndex(table, c, n - 1)
  }

  /** The alphabet has c; the escape code does not count. */
  ghost predicate InAlphabet(c: char) {
    c != ESC && exists i: nat :: i < 128 && Gsm7Basic(i) == c
  }

  /** The encoding table's entry for c. */
  function Code(c: char): (r: Option<nat>)
    ensures r.Some? <==> InAlphabet(c)
    ensures r.Some? ==> r.value < 128 && Gsm7Basic(r.value) == c
  {
    if c == ESC then None else LastIndex(Gsm7Basic, c, 128)
  }

  function Septet(c: char): (s: nat)
    ensures s < 128
  {
    if Code(c).Some? then Code(c).value
    else if Code('?').Some? then Code('?').value
    else 0x3F
  }

  function Septets(text: string): (ss: seq<nat>)
    ensures |ss| == |text|
    ensures forall i :: 0 <= i < |text| ==> ss[i] == Septet(text[i])
  {
    seq(|text|, i requires 0 <= i < |text| => Septet(text[i]))
  }

  /** `text` with every character the alphabet cannot carry turned into '?'. */
  function Clean(text: string): (t: string)
    ensures |t| == |text|
  {
    seq(|text|, i requires 0 <= i < |text| => if Code(text[i]).Some? then text[i] else '?')
  }

  /** ceil(7n/8) octets carry n septets. */
  function PackedSize(n: nat): nat {
    (7 * n + 7) / 8
  }

  /** The octet string whose little-endian value is the sum of septet i times 2^(7i). */
  function Packed(text: string): (bs: seq<byte>)
    ensures |bs| == PackedSize(|text|)
  {
    LittleBytes(Value(Septets(text), 7), PackedSize(|text|))
  }

  lemma SeptetsFit(text: string)
    ensures DigitsFit(Septets(text), 7)
  {
    Pow2Small();
  }

  lemma PackedValue(text: string)
    ensures LittleEndian(Packed(text)) == Value(Septets(text), 7)
  {
    SeptetsFit(text);
    ValueBound(Septets(text), 7);
    var n := |text|;
    Pow2Monotone(7 * n, 8 * PackedSize(n));
    LittleEndianOf(Value(Septets(text), 7), PackedSize(n));
  }

  /**
   * The packer's state after reading the septets of `stream`: finished octets
   * and, above them, fewer than bitCount pending bits.
   */
  ghost predicate Packing(stream: seq<nat>, out: seq<byte>, bits: nat, bitCount: nat) {
    && 8 * |out| + bitCount == 7 * |stream|
    && bits < Pow2(bitCount)
    && LittleEndian(out) + Shl(bits, 8 * |out|) == Value(stream, 7)
  }

  lemma PackingStart()
    ensures Packing([], [], 0, 0)
  {
  }

  lemma MaskSeptet(septet: nat)
    requires septet < 128
    ensures And(septet, 0x7F) == septet
  {
    hide And, Low;
    Pow2Small();
    AndMask(septet, 7);
    LowSmall(septet);
  }

  lemma PushBits(bits: nat, bitCount: nat, septet: nat, n: nat)
    requires bits < Pow2(bitCount) && septet < Pow2(7)
    ensures var bits' := Or(bits, Shl(septet, bitCount));
            && bits' < Pow2(7 + bitCount)
            && Shl(bits', n) == Shl(bits, n) + Shl(septet, bitCount + n)
  {
    OrDisjoint(bits, septet, bitCount);
    ShlBound(septet, bits, 7, bitCount);
    ShlSum(bits, Shl(septet, bitCount), n);
    ShlShl(septet, bitCount, n);
  }

  lemma PushSeptet(stream: seq<nat>, out: seq<byte>, bits: nat, bitCount: nat, septet: nat)
    requires Packing(stream, out, bits, bitCount) && septet < 128
    ensures Packing(stream + [septet], out, Or(bits, Shl(And(septet, 0x7F), bitCount)), bitCount + 7)
  {
    MaskSeptet(septet);
    Pow2Small();
    PushBits(bits, bitCount, septet, 8 * |out|);
    ValueAppend(stream, septet, 7);
    assert 7 * |stream + [septet]| == 7 * |stream| + 7;
  }

  lemma PopOctet(stream: seq<nat>, out: seq<byte>, bits: nat, bitCount: nat)
    requires Packing(stream, out, bits, bitCount)
    ensures And(bits, 0xFF) == bits % 256
    ensures bitCount >= 8 ==> Packing(stream, out + [bits % 256], Shr(bits, 8), bitCount - 8)
    ensures bitCount <= 8 ==> LittleEndian(out + [bits % 256]) == Value(stream, 7)
    ensures bitCount == 0 ==> LittleEndian(out) == Value(stream, 7)
  {
    hide And, Shr, Shl, Low, Pow2;
    var n := 8 * |out|;
    Pow2Small();
    AndMask(bits, 8);
    LowSmall(bits);
    SplitBits(bits, 8);
    var low: nat, high := bits % 256, Shr(bits, 8);
    ValueAppend(out, low, 8);
    ShlSum(low, Shl(high, 8), n);
    ShlShl(high, 8, n);
    if bitCount >= 8 {
      ShrBound(bits, bitCount - 8, 8);
    }
    if bitCount <= 8 {
      Pow2Monotone(bitCount, 8);
      ShlZero(8 + n);
    }
    if bitCount == 0 {
      ShlZero(n);
    }
  }

  /** Encodes text into packed septets with a streaming bit accumulator. */
  method EncodeGsm7(text: string) returns (result: seq<byte>)
    ensures result == Packed(text)
  {
    hide And, Or, Shr, Packing;
    var septets := MapSeptets(text);
    var bits: nat, bitCount: nat := 0, 0;
    result := [];
    PackingStart();
    assert septets[..0] == [];
    for k := 0 to |septets|
      invariant bitCount < 8 && Packing(septets[..k], result, bits, bitCount)
    {
      TakeNext(septets, k);
      PushSeptet(septets[..k], result, bits, bitCount, septets[k]);
      bits := Or(bits, Shl(And(septets[k], 0x7F), bitCount));
      bitCount := bitCount + 7;
      while bitCount >= 8
        invariant bitCount < 15 && Packing(septets[..k + 1], result, bits, bitCount)
      {
        PopOctet(septets[..k + 1], result, bits, bitCount);
        result := result + [And(bits, 0xFF)];
        bits := Shr(bits, 8);
        bitCount := bitCount - 8;
      }
    }
    TakeAll(septets);
    PopOctet(septets, result, bits, bitCount);
    PackingSize(septets, result, bits, bitCount);
    if bitCount > 0 {
      result := result + [And(bits, 0xFF)];
    }
    PackedIs(text, septets, result);
  }

  lemma PackedIs(text: string, septets: seq<nat>, result: seq<byte>)
    requires septets == Septets(text) && LittleEndian(result) == Value(septets, 7)
    requires |result| == PackedSize(|text|)
    ensures result == Packed(text)
  {
    LittleBytesOf(result);
  }

  lemma PackingSize(stream: seq<nat>, out: seq<byte>, bits: nat, bitCount: nat)
    requires Packing(stream, out, bits, bitCount) && bitCount < 8
    ensures |out| + (if bitCount > 0 then 1 else 0) == PackedSize(|stream|)
  {
  }

  method MapSeptets(text: string) returns (septets: seq<nat>)
    ensures septets == Septets(text)
  {
    hide Code, Gsm7Basic;
    septets := [];
    for i := 0 to |text|
      invariant septets == Septets(text[..i])
    {
      var code := Code(text[i]);
      if code.Some? {
        septets := septets + [code.value];
      } else {
        var fallback := Code('?');
        septets := septets + [if fallback.Some? then fallback.value else 0x3F];
      }
    }
    assert text[..|text|] == text;
  }

  /** Bits 7i .. 7i+6 of the little-endian number in `data`. */
  function SeptetAt(data: seq<byte>, i: nat): (s: nat)
    ensures s < 128
  {
    var stream := Shr(LittleEndian(data), 7 * i);
    LowSmall(stream);
    Low(stream, 7)
  }

  function SeptetChar(data: seq<byte>, i: nat): char {
    Gsm7Basic(SeptetAt(data, i))
  }

  function Unpacked(data: seq<byte>, n: nat): (t: string)
    ensures |t| == n
    ensures forall i :: 0 <= i < n ==> t[i] == SeptetChar(data, i)
  {
    seq(n, i requires 0 <= i < n => SeptetChar(data, i))
  }

  /** Decodes n septets out of one big accumulator. */
  method DecodeGsm7(data: seq<byte>, n: nat) returns (text: string)
    ensures text == Unpacked(data, n)
  {
    hide Or, And, Shl, Shr, Pow2, Gsm7Basic;
    var bits: nat, bitCount: nat := 0, 0;
    for i := 0 to |data|
      invariant bitCount == 8 * i
      invariant bits == LittleEndian(data[..i])
    {
      assert data[..i + 1] == data[..i] + [data[i]];
      ValueAppend(data[..i], data[i], 8);
      BytesFit(data[..i]);
      ValueBound(data[..i], 8);
      OrDisjoint(bits, data[i], bitCount);
      bits := Or(bits, Shl(data[i], bitCount));
      bitCount := bitCount + 8;
    }
    assert data[..|data|] == data;
    text := "";
    for i := 0 to n
      invariant text == Unpacked(data, i)
    {
      Pow2Small();
      var septet := And(Shr(bits, i * 7), 0x7F);
      AndMask(Shr(bits, i * 7), 7);
      if septet < 128 {
        text := text + [Gsm7Basic(septet)];
      } else {
        text := text + "?";
      }
    }
  }

  lemma SeptetCharOf(text: string, i: nat)
    requires i < |text|
    ensures Gsm7Basic(Septet(text[i])) == Clean(text)[i]
  {
  }

  /** Decoding what was encoded gives the text back, unmappable characters as '?'. */
  lemma GsmRoundTrip(text: string)
    ensures Unpacked(Packed(text), |text|) == Clean(text)
  {
    PackedValue(text);
    SeptetsFit(text);
    Pow2Small();
    forall i | 0 <= i < |text|
      ensures SeptetChar(Packed(text), i) == Clean(text)[i]
    {
      DigitAt(Septets(text), 7, i);
      SeptetCharOf(text, i);
    }
  }

  /** Text the alphabet can carry survives unchanged, and only such text does. */
  lemma GsmLossless(text: string)
    ensures Unpacked(Packed(text), |text|) == text
        <==> forall i :: 0 <= i < |text| ==> InAlphabet(text[i]) || text[i] == '?'
  {
    GsmRoundTrip(text);
  }
}
