/** UTF-16 big-endian text, decoded with U+FFFD standing for what is malformed. */
module Utf16 {
  import opened Bits

  const REPLACEMENT: char := '\U{FFFD}'

  function EncodeChar(c: char): (bs: seq<byte>)
    ensures |bs| == 2 || |bs| == 4
  {
    var v := c as int;
    if v < 0x10000 then [v / 256, v % 256]
    else
      var hi, lo := 0xD800 + (v - 0x10000) / 1024, 0xDC00 + (v - 0x10000) % 1024;
      [hi / 256, hi % 256, lo / 256, lo % 256]
  }

  function Encode(text: string): seq<byte> {
    if text == "" then [] else EncodeChar(text[0]) + Encode(text[1..])
  }

  function Decode(data: seq<byte>): string {
    if data == [] then ""
    else if |data| == 1 then [REPLACEMENT]
    else
      var unit: nat := data[0] as int * 256 + data[1] as int;
      if unit < 0xD800 || unit >= 0xE000 then [unit as char] + Decode(data[2..])
      else if unit >= 0xDC00 then [REPLACEMENT] + Decode(data[2..])
      else if |data| < 4 then [REPLACEMENT]
      else
        var next: nat := data[2] as int * 256 + data[3] as int;
        if 0xDC00 <= next < 0xE000
        then [(0x10000 + (unit - 0xD800) * 1024 + (next - 0xDC00)) as char] + Decode(data[4..])
        else [REPLACEMENT] + Decode(data[2..])
  }

  lemma DecodeOne(c: char, rest: seq<byte>)
    ensures Decode(EncodeChar(c) + rest) == [c] + Decode(rest)
  {
    var bs := EncodeChar(c);
    var all := bs + rest;
    assert all[|bs|..] == rest;
  }

  lemma {:induction false} Utf16RoundTrip(text: string)
    ensures Decode(Encode(text)) == text
  {
    if text != "" {
      Utf16RoundTrip(text[1..]);
      DecodeOne(text[0], Encode(text[1..]));
    }
  }
}
