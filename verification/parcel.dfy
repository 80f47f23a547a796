/**
 * The RIL shim's Parcel: a growing buffer of little-endian int32s and padded UTF-16
 * strings, written at one end and read from the other.
 */
module Parcels {
  import opened Bits
  import opened Digits
  import opened Wrappers

  type int32 = v: int | -0x8000_0000 <= v < 0x8000_0000

  /** A C string's bytes, without the terminating NUL; its length fits an int32. */
  type cstring = s: seq<byte> | 0 !in s && |s| < 0x8000_0000 witness []

  // ---- The bytes of a value -----------------------------------------------

  /** Two's complement, little-endian */
  function I32Bytes(v: int32): (bs: seq<byte>)
    ensures |bs| == 4
  {
    LittleBytes(if v < 0 then v + 0x1_0000_0000 else v, 4)
  }

  function I32Of(bs: seq<byte>): int32
    requires |bs| == 4
  {
    LittleEndianBound(bs);
    var u := LittleEndian(bs);
    if u >= 0x8000_0000 then u - 0x1_0000_0000 else u
  }

  lemma LittleEndianBound(bs: seq<byte>)
    requires |bs| == 4
    ensures LittleEndian(bs) < 0x1_0000_0000
  {
    Pow2Large();
    BytesFit(bs);
    ValueBound(bs, 8);
  }

  lemma I32RoundTrip(v: int32)
    ensures I32Of(I32Bytes(v)) == v
  {
    Pow2Large();
    LittleEndianOf(if v < 0 then v + 0x1_0000_0000 else v, 4);
  }

  /** UTF-16 units of a string's bytes, little-endian */
  function Units(s: seq<byte>): (bs: seq<byte>)
    ensures |bs| == 2 * |s|
  {
    if s == [] then [] else Units(s[..|s| - 1]) + [s[|s| - 1], 0]
  }

  /** Zeros from a count of units to a whole number of words: the terminator and the padding */
  function Tail(n: nat): (bs: seq<byte>)
    ensures (2 * n + |bs|) % 4 == 0 && 2 <= |bs| <= 4
    ensures forall i :: 0 <= i < |bs| ==> bs[i] == 0
  {
    if n % 2 == 0 then [0, 0, 0, 0] else [0, 0]
  }

  lemma TailStarts(n: nat)
    ensures Tail(n)[..2] == [0, 0]
  {
  }

  function PaddedLength(n: nat): nat {
    ((n + 1) * 2 + 3) / 4 * 4
  }

  lemma PaddedIsTail(n: nat)
    ensures PaddedLength(n) == 2 * n + |Tail(n)|
  {
    var m := n / 2;
    if n % 2 == 0 {
      assert (n + 1) * 2 + 3 == 4 * (m + 1) + 1;
    } else {
      assert (n + 1) * 2 + 3 == 4 * (m + 1) + 3;
    }
  }

  /** After two or more zeros, the word is whole exactly when the tail is. */
  lemma WholeWord(start: nat, n: nat, zeros: nat)
    requires (start - 2 * n) % 4 == 0 && 2 <= zeros <= |Tail(n)|
    ensures (start + zeros) % 4 == 0 <==> zeros == |Tail(n)|
  {
    var m, q := n / 2, (start - 2 * n) / 4;
    if n % 2 == 0 {
      assert start == 4 * (q + m);
    } else {
      assert start == 4 * (q + m) + 2;
    }
  }

  function Str16Bytes(s: Option<cstring>): (bs: seq<byte>)
    ensures |bs| % 4 == 0
  {
    match s
    case None => I32Bytes(-1)
    case Some(t) => I32Bytes(|t|) + Units(t) + Tail(|t|)
  }

  // ---- Reading ------------------------------------------------------------

  /** The int32 at a position, and where reading stands after it; 0 past the end. */
  function ReadI32At(data: seq<byte>, pos: nat): (int32, nat) {
    if pos + 4 > |data| then (0, pos) else (I32Of(data[pos..pos + 4]), pos + 4)
  }

  /** A unit as a character: '?' outside ASCII */
  function Narrow(c: nat): byte {
    if c < 128 then c else 63
  }

  function UnitAt(data: seq<byte>, i: nat): nat
    requires i + 1 < |data|
  {
    var low: nat, high: nat := data[i], data[i + 1];
    low + 256 * high
  }

  function NarrowAll(data: seq<byte>, pos: nat, n: nat): (s: seq<byte>)
    requires pos + 2 * n <= |data|
    ensures |s| == n
  {
    if n == 0 then []
    else NarrowAll(data, pos, n - 1) + [Narrow(UnitAt(data, pos + 2 * (n - 1)))]
  }

  /** The string at a position; none for a null, or, at the end of the data, for a string that does not fit. */
  function ReadStr16At(data: seq<byte>, pos: nat): (Option<seq<byte>>, nat) {
    var (count, at) := ReadI32At(data, pos);
    if count < 0 then (None, at)
    else if at + PaddedLength(count) > |data| then (None, |data|)
    else
      PaddedIsTail(count);
      (Some(NarrowAll(data, at, count)), at + PaddedLength(count))
  }

  // ---- The buffer ---------------------------------------------------------

  class Parcel {
    var buf: array<byte>
    var len: nat
    var pos: nat

    /** Reading stays behind writing; a received parcel need not end on a word. */
    ghost predicate Readable()
      reads this, buf
    {
      len <= buf.Length && pos <= len
    }

    /** Words are written whole. */
    ghost predicate Valid()
      reads this, buf
    {
      Readable() && 0 < buf.Length && len % 4 == 0
    }

    function Contents(): seq<byte>
      requires len <= buf.Length
      reads this, buf
    {
      buf[..len]
    }

    constructor (cap: nat)
      requires cap > 0
      ensures Valid() && fresh(buf) && buf.Length == cap && Contents() == [] && pos == 0
    {
      buf := new byte[cap](_ => 0);
      len, pos := 0, 0;
    }

    /** Room for more bytes, by doubling */
    method Ensure(need: nat)
      requires 0 < buf.Length && len <= buf.Length
      modifies this`buf
      ensures len + need <= buf.Length && (buf == old(buf) || fresh(buf)) && 0 < buf.Length
      ensures buf[..len] == old(buf[..len])
      ensures buf.Length == old(buf.Length) || buf.Length < 2 * (len + need)
    {
      while len + need > buf.Length
        invariant 0 < buf.Length && len <= buf.Length && (buf == old(buf) || fresh(buf))
        invariant buf[..len] == old(buf[..len])
        invariant buf.Length == old(buf.Length) || buf.Length < 2 * (len + need)
        decreases len + need - buf.Length
      {
        var bigger := new byte[2 * buf.Length](_ => 0);
        forall i | 0 <= i < buf.Length {
          bigger[i] := buf[i];
        }
        assert bigger[..len] == buf[..len];
        buf := bigger;
      }
    }

    method WriteI32(v: int32)
      requires Valid()
      modifies this, buf
      ensures Valid() && (buf == old(buf) || fresh(buf)) && pos == old(pos)
      ensures Contents() == old(Contents()) + I32Bytes(v)
    {
      hide I32Bytes;
      Ensure(4);
      var bs := I32Bytes(v);
      ghost var before := buf[..len];
      forall i | 0 <= i < 4 {
        buf[len + i] := bs[i];
      }
      assert buf[..len] == before && buf[len..len + 4] == bs;
      len := len + 4;
      assert buf[..len] == before + bs;
    }

    /** One byte, where there is room */
    method Append(b: byte)
      requires len < buf.Length
      modifies this`len, buf
      ensures len == old(len) + 1 && buf[..len] == old(buf[..len]) + [b]
    {
      buf[len] := b;
      len := len + 1;
      assert buf[..len - 1] == old(buf[..len]);
    }

    method WriteStr16(s: Option<cstring>)
      requires Valid()
      modifies this, buf
      ensures Valid() && (buf == old(buf) || fresh(buf)) && pos == old(pos)
      ensures Contents() == old(Contents()) + Str16Bytes(s)
    {
      hide I32Bytes, PaddedLength, Units, Tail;
      if s.None? {
        WriteI32(-1);
        return;
      }
      var t, charCount := s.value, |s.value|;
      WriteI32(charCount);
      var padded := PaddedLength(charCount);
      PaddedIsTail(charCount);
      Ensure(padded);
      StringStart(len, charCount);
      ghost var start := Contents();
      WriteUnits(t);
      WriteTail(charCount);
      assert Contents() == start + Units(t) + Tail(charCount);
    }

    /** The characters, each widened to a unit */
    method WriteUnits(t: seq<byte>)
      requires len + 2 * |t| <= buf.Length
      modifies this`len, buf
      ensures len == old(len) + 2 * |t| && buf[..len] == old(buf[..len]) + Units(t)
    {
      hide Units;
      ghost var start := buf[..len];
      NoUnits();
      for i := 0 to |t|
        invariant len == old(len) + 2 * i
        invariant buf[..len] == start + Units(t[..i])
      {
        UnitsNext(t, i);
        Append(t[i]);
        Append(0);
      }
      assert t[..|t|] == t;
    }

    /** The terminator, then zeros up to a whole word */
    method WriteTail(charCount: nat)
      requires (len - 2 * charCount) % 4 == 0 && len + |Tail(charCount)| <= buf.Length
      modifies this`len, buf
      ensures len <= buf.Length && buf[..len] == old(buf[..len]) + Tail(charCount)
    {
      hide Tail;
      ghost var start := buf[..len];
      TailStarts(charCount);
      Append(0);
      Append(0);
      ghost var zeros: seq<byte> := [0, 0];
      WholeWord(|start|, charCount, |zeros|);
      while len % 4 != 0
        invariant len == old(len) + |zeros| && 2 <= |zeros| <= |Tail(charCount)| && zeros == Tail(charCount)[..|zeros|]
        invariant len % 4 == 0 <==> |zeros| == |Tail(charCount)|
        invariant buf[..len] == start + zeros
        decreases buf.Length - len
      {
        Append(0);
        zeros := zeros + [0];
        WholeWord(|start|, charCount, |zeros|);
      }
    }

    method ReadI32() returns (v: int32)
      requires Readable()
      modifies this`pos
      ensures Readable() && (v, pos) == ReadI32At(Contents(), old(pos))
    {
      if pos + 4 > len {
        return 0;
      }
      assert buf[pos..pos + 4] == Contents()[pos..pos + 4];
      v := I32Of(buf[pos..pos + 4]);
      pos := pos + 4;
    }

    method ReadStr16() returns (s: Option<seq<byte>>)
      requires Readable()
      modifies this`pos
      ensures Readable() && (s, pos) == ReadStr16At(Contents(), old(pos))
    {
      hide ReadI32At, PaddedLength;
      ghost var data := Contents();
      var charCount := ReadI32();
      if charCount < 0 {
        return None;
      }
      var padded := PaddedLength(charCount);
      PaddedIsTail(charCount);
      if pos + padded > len {
        pos := len;
        return None;
      }
      var out: seq<byte> := [];
      for i := 0 to charCount
        invariant out == NarrowAll(data, pos, i)
      {
        var low: nat, high: nat := buf[pos + 2 * i], buf[pos + 2 * i + 1];
        assert UnitAt(data, pos + 2 * i) == low + 256 * high;
        out := out + [Narrow(low + 256 * high)];
      }
      pos := pos + padded;
      s := Some(out);
    }
  }

  lemma StringStart(len: nat, n: nat)
    requires len % 4 == 0
    ensures (len + 2 * n - 2 * n) % 4 == 0 && (len + PaddedLength(n)) % 4 == 0
  {
  }

  lemma NoUnits()
    ensures Units([]) == []
  {
  }

  lemma UnitsNext(s: seq<byte>, i: nat)
    requires i < |s|
    ensures Units(s[..i + 1]) == Units(s[..i]) + [s[i], 0]
  {
    TakeNext(s, i);
    assert s[..i + 1][..i] == s[..i];
  }

  // ---- Whole messages -----------------------------------------------------

  /** What a message is made of, in order */
  datatype Item = I32(v: int32) | Str16(s: Option<cstring>)

  function ItemBytes(item: Item): seq<byte> {
    match item
    case I32(v) => I32Bytes(v)
    case Str16(s) => Str16Bytes(s)
  }

  function MessageBytes(items: seq<Item>): seq<byte> {
    if items == [] then [] else MessageBytes(items[..|items| - 1]) + ItemBytes(items[|items| - 1])
  }

  /** What a reader of this shape of item gets: non-ASCII bytes become '?'. */
  datatype Got = GotI32(v: int32) | GotStr16(s: Option<seq<byte>>)

  function ReadItemAt(data: seq<byte>, pos: nat, shape: Item): (Got, nat) {
    match shape
    case I32(_) => (GotI32(ReadI32At(data, pos).0), ReadI32At(data, pos).1)
    case Str16(_) => (GotStr16(ReadStr16At(data, pos).0), ReadStr16At(data, pos).1)
  }

  /** The matching reads, one after another from a position on */
  function ReadItems(data: seq<byte>, shapes: seq<Item>): (seq<Got>, nat) {
    if shapes == [] then ([], 0)
    else
      var (before, pos) := ReadItems(data, shapes[..|shapes| - 1]);
      var (got, next) := ReadItemAt(data, pos, shapes[|shapes| - 1]);
      (before + [got], next)
  }

  function AsRead(item: Item): Got {
    match item
    case I32(v) => GotI32(v)
    case Str16(None) => GotStr16(None)
    case Str16(Some(t)) => GotStr16(Some(AsciiOf(t)))
  }

  function AsciiOf(t: seq<byte>): (r: seq<byte>)
    ensures |r| == |t|
    ensures forall i :: 0 <= i < |t| ==> r[i] == Narrow(t[i])
  {
    seq(|t|, i requires 0 <= i < |t| => Narrow(t[i]))
  }

  function AllAsRead(items: seq<Item>): (gots: seq<Got>)
    ensures |gots| == |items|
    ensures forall i :: 0 <= i < |items| ==> gots[i] == AsRead(items[i])
  {
    seq(|items|, i requires 0 <= i < |items| => AsRead(items[i]))
  }

  lemma {:induction false} NarrowUnits(data: seq<byte>, pos: nat, t: seq<byte>, n: nat)
    requires n <= |t| && pos + 2 * |t| <= |data| && data[pos..pos + 2 * |t|] == Units(t)
    ensures NarrowAll(data, pos, n) == AsciiOf(t)[..n]
  {
    hide Units, AsciiOf, Narrow;
    if n > 0 {
      NarrowUnits(data, pos, t, n - 1);
      TakeNext(AsciiOf(t), n - 1);
      UnitsAt(t, n - 1);
      var at := pos + 2 * (n - 1);
      var units := data[pos..pos + 2 * |t|];
      assert units[2 * (n - 1)] == data[at] && units[2 * (n - 1) + 1] == data[at + 1];
      assert UnitAt(data, at) == t[n - 1];
    }
  }

  lemma {:induction false} UnitsAt(t: seq<byte>, i: nat)
    requires i < |t|
    ensures Units(t)[2 * i] == t[i] && Units(t)[2 * i + 1] == 0
  {
    if i < |t| - 1 {
      UnitsAt(t[..|t| - 1], i);
    }
  }

  lemma I32Reads(pre: seq<byte>, v: int32, post: seq<byte>)
    ensures ReadI32At(pre + I32Bytes(v) + post, |pre|) == (v, |pre| + 4)
  {
    hide I32Bytes, I32Of;
    I32RoundTrip(v);
    assert (pre + I32Bytes(v) + post)[|pre|..|pre| + 4] == I32Bytes(v);
  }

  lemma Str16Reads(pre: seq<byte>, s: Option<cstring>, post: seq<byte>)
    ensures ReadItemAt(pre + Str16Bytes(s) + post, |pre|, Str16(s)) == (AsRead(Str16(s)), |pre| + |Str16Bytes(s)|)
  {
    hide I32Bytes, Units, NarrowAll, PaddedLength, ReadI32At;
    match s
    case None => I32Reads(pre, -1, post);
    case Some(t) =>
      var data := pre + Str16Bytes(s) + post;
      assert data == pre + I32Bytes(|t|) + (Units(t) + Tail(|t|) + post);
      I32Reads(pre, |t|, Units(t) + Tail(|t|) + post);
      PaddedIsTail(|t|);
      var at := |pre| + 4;
      assert data[at..at + 2 * |t|] == Units(t);
      NarrowUnits(data, at, t, |t|);
      assert AsciiOf(t)[..|t|] == AsciiOf(t);
  }

  lemma ItemReads(pre: seq<byte>, item: Item, post: seq<byte>)
    ensures ReadItemAt(pre + ItemBytes(item) + post, |pre|, item) == (AsRead(item), |pre| + |ItemBytes(item)|)
  {
    hide I32Bytes, Str16Bytes, ReadI32At, ReadStr16At;
    match item
    case I32(v) => I32Reads(pre, v, post);
    case Str16(s) =>
      Str16Reads(pre, s, post);
  }

  lemma {:induction false} PrefixReads(items: seq<Item>, post: seq<byte>)
    ensures ReadItems(MessageBytes(items) + post, items) == (AllAsRead(items), |MessageBytes(items)|)
  {
    hide ItemBytes, ReadItemAt, AsRead;
    if items != [] {
      var n := |items| - 1;
      var front, last := items[..n], items[n];
      var rest := ItemBytes(last) + post;
      assert MessageBytes(items) + post == MessageBytes(front) + rest == MessageBytes(front) + ItemBytes(last) + post;
      PrefixReads(front, rest);
      ItemReads(MessageBytes(front), last, post);
      assert AllAsRead(items) == AllAsRead(front) + [AsRead(last)];
    }
  }

  /**
   * Every message reads back value for value by the matching reads, which end where
   * the data ends, on a word boundary.
   */
  lemma ParcelRoundTrip(items: seq<Item>)
    ensures ReadItems(MessageBytes(items), items) == (AllAsRead(items), |MessageBytes(items)|)
    ensures |MessageBytes(items)| % 4 == 0
  {
    hide ReadItems, MessageBytes;
    PrefixReads(items, []);
    assert MessageBytes(items) + [] == MessageBytes(items);
    WholeWords(items);
  }

  lemma {:induction false} WholeWords(items: seq<Item>)
    ensures |MessageBytes(items)| % 4 == 0
  {
    hide ItemBytes;
    if items != [] {
      WholeWords(items[..|items| - 1]);
      ItemWords(items[|items| - 1]);
    }
  }

  lemma ItemWords(item: Item)
    ensures |ItemBytes(item)| % 4 == 0
  {
  }

  /** ASCII strings come back unchanged. */
  lemma AsciiUnchanged(t: cstring)
    requires forall b :: b in t ==> b < 128
    ensures AsRead(Str16(Some(t))) == GotStr16(Some(t))
  {
    assert forall i :: 0 <= i < |t| ==> t[i] in t;
    assert AsciiOf(t) == t;
  }

  // ---- Octets -------------------------------------------------------------

  /** The four octets of an int32, least significant first, the sign in the last */
  lemma I32Layout(v: int32)
    ensures var bs := I32Bytes(v);
            && v == bs[0] as int + 0x100 * bs[1] as int + 0x1_0000 * bs[2] as int + 0x100_0000 * bs[3] as int
                    - (if v < 0 then 0x1_0000_0000 else 0)
            && (v < 0 <==> bs[3] >= 128)
  {
    var u: nat := if v < 0 then v + 0x1_0000_0000 else v;
    FourBytes(u, 4);
    FourDigits(u);
  }

  lemma FourDigits(u: nat)
    requires u < 0x1_0000_0000
    ensures var a := u / 256; var b := a / 256; var c := b / 256;
            && u == u % 256 + 0x100 * (a % 256) + 0x1_0000 * (b % 256) + 0x100_0000 * (c % 256)
            && (c % 256 >= 128 <==> u >= 0x8000_0000)
  {
    var a := u / 256;
    var b := a / 256;
    var c := b / 256;
    assert u == u % 256 + 0x100 * a && a == a % 256 + 0x100 * b && b == b % 256 + 0x100 * c;
    assert c < 256;
  }

  lemma FourBytes(u: nat, n: nat)
    requires n == 4
    ensures LittleBytes(u, n) == [u % 256, u / 256 % 256, u / 256 / 256 % 256, u / 256 / 256 / 256 % 256]
  {
    assert LittleBytes(u / 256, n - 1) == [u / 256 % 256] + LittleBytes(u / 256 / 256, n - 2);
    assert LittleBytes(u / 256 / 256, n - 2) == [u / 256 / 256 % 256] + LittleBytes(u / 256 / 256 / 256, n - 3);
    assert LittleBytes(u / 256 / 256 / 256, n - 3) == [u / 256 / 256 / 256 % 256] + LittleBytes(u / 256 / 256 / 256 / 256, n - 4);
  }

  /**
   * A string in a message: its length, each byte as a unit of two octets, and zeros
   * to the first whole word that leaves room for a terminator; a null is the length -1.
   */
  lemma Str16Layout(t: cstring)
    ensures var bs := Str16Bytes(Some(t));
            && |bs| % 4 == 0 && 4 + 2 * |t| + 2 <= |bs| < 4 + 2 * |t| + 6
            && bs[..4] == I32Bytes(|t|)
            && (forall i :: 0 <= i < |t| ==> bs[4 + 2 * i] == t[i] && bs[5 + 2 * i] == 0)
            && (forall i :: 4 + 2 * |t| <= i < |bs| ==> bs[i] == 0)
    ensures Str16Bytes(None) == I32Bytes(-1)
  {
    hide I32Bytes, Units, Tail;
    var bs := Str16Bytes(Some(t));
    forall i | 0 <= i < |t|
      ensures bs[4 + 2 * i] == t[i] && bs[5 + 2 * i] == 0
    {
      UnitsAt(t, i);
    }
  }

  /** A string as it stands in any data: its units below 128 are characters, and every other is a '?'. */
  lemma StringReads(data: seq<byte>, pos: nat, n: nat)
    requires n < 0x8000_0000 && pos + 4 <= |data| && data[pos..pos + 4] == I32Bytes(n)
    ensures var (s, next) := ReadStr16At(data, pos);
            var end := if n % 2 == 0 then pos + 4 + 2 * n + 4 else pos + 4 + 2 * n + 2;
            if end > |data| then s == None && next == |data|
            else
              && next == end && s.Some? && |s.value| == n
              && forall i :: 0 <= i < n ==>
                   var low, high := data[pos + 4 + 2 * i], data[pos + 4 + 2 * i + 1];
                   s.value[i] == if high == 0 && low < 128 then low else '?' as byte
  {
    hide I32Bytes, I32Of, PaddedLength, Narrow, UnitAt;
    I32RoundTrip(n);
    PaddedIsTail(n);
    if pos + 4 + PaddedLength(n) <= |data| {
      forall i | 0 <= i < n
        ensures NarrowAll(data, pos + 4, n)[i] == Narrow(UnitAt(data, pos + 4 + 2 * i))
      {
        NarrowAt(data, pos + 4, n, i);
      }
      forall i | 0 <= i < n
        ensures var low, high := data[pos + 4 + 2 * i], data[pos + 4 + 2 * i + 1];
                Narrow(UnitAt(data, pos + 4 + 2 * i)) == if high == 0 && low < 128 then low else '?' as byte
      {
        UnitNarrows(data, pos + 4 + 2 * i);
      }
    }
  }

  lemma UnitNarrows(data: seq<byte>, at: nat)
    requires at + 1 < |data|
    ensures Narrow(UnitAt(data, at)) == if data[at + 1] == 0 && data[at] < 128 then data[at] else '?' as byte
  {
  }

  lemma {:induction false} NarrowAt(data: seq<byte>, pos: nat, n: nat, i: nat)
    requires i < n && pos + 2 * n <= |data|
    ensures NarrowAll(data, pos, n)[i] == Narrow(UnitAt(data, pos + 2 * i))
  {
    hide Narrow, UnitAt;
    if i < n - 1 {
      NarrowAt(data, pos, n - 1, i);
    }
  }
}
