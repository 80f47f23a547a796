/**
 * Concatenated messages (section 9.2.3.24.1 of 3GPP TS 23.040): the user data
 * header, splitting a long text, and reassembling parts in any order.
 */
module Multipart {
  import opened Bits
  import opened Digits
  import opened Gsm7
  import opened Python
  import opened SmsAddress
  import opened SmsTpdu
  import opened Wrappers
  import Utf16

  // ---- User data header ---------------------------------------------------

  const IEI_CONCAT_8BIT := 0x00
  const IEI_CONCAT_16BIT := 0x08

  /** Reference number, total parts, part number. */
  datatype Concat = Concat(ref: nat, total: nat, part: nat)

  function EncodeUdhConcat(ref: nat, total: nat, part: nat): seq<byte> {
    [0x05, IEI_CONCAT_8BIT, 0x03, ref % 256, total % 256, part % 256]
  }

  /** The concatenation element at `offset` of a header, or the first one after it. */
  function ConcatFrom(udh: seq<byte>, offset: nat, end: nat): Option<Concat>
    decreases |udh| - offset
  {
    if offset >= end || offset + 1 >= |udh| then None
    else
      var iei, ieLen: nat := udh[offset], udh[offset + 1];
      if offset + 2 + ieLen > |udh| then None
      else if iei == IEI_CONCAT_8BIT && ieLen == 3 then
        Some(Concat(udh[offset + 2], udh[offset + 3], udh[offset + 4]))
      else if iei == IEI_CONCAT_16BIT && ieLen == 4 then
        Some(Concat(BigEndian(udh[offset + 2..offset + 4]), udh[offset + 4], udh[offset + 5]))
      else ConcatFrom(udh, offset + 2 + ieLen, end)
  }

  function UdhConcat(udh: seq<byte>): Option<Concat> {
    if |udh| < 1 || |udh| < 1 + udh[0] as int then None
    else ConcatFrom(udh, 1, 1 + udh[0] as int)
  }

  lemma TwoOctets(hi: byte, lo: byte)
    ensures Or(Shl(hi, 8), lo) == BigEndian([hi, lo])
  {
    Pow2Small();
    OrDisjoint(lo, hi, 8);
    OrCommutes(lo, Shl(hi, 8));
    ShlSmall(hi);
    assert [hi, lo][..1] == [hi] && [hi][..0] == [];
    assert BigEndian([hi]) == hi;
  }

  method DecodeUdhConcat(udh: seq<byte>) returns (r: Option<Concat>)
    ensures r == UdhConcat(udh)
  {
    if |udh| < 1 {
      return None;
    }
    var udhl: nat := udh[0];
    if |udh| < 1 + udhl {
      return None;
    }
    var offset: nat := 1;
    while offset < 1 + udhl
      invariant ConcatFrom(udh, offset, 1 + udhl) == UdhConcat(udh)
      decreases |udh| - offset
    {
      if offset + 1 >= |udh| {
        break;
      }
      var iei, ieLen: nat := udh[offset], udh[offset + 1];
      if offset + 2 + ieLen > |udh| {
        break;
      }
      if iei == IEI_CONCAT_8BIT && ieLen == 3 {
        return Some(Concat(udh[offset + 2], udh[offset + 3], udh[offset + 4]));
      } else if iei == IEI_CONCAT_16BIT && ieLen == 4 {
        TwoOctets(udh[offset + 2], udh[offset + 3]);
        assert udh[offset + 2..offset + 4] == [udh[offset + 2], udh[offset + 3]];
        var ref := Or(Shl(udh[offset + 2], 8), udh[offset + 3]);
        return Some(Concat(ref, udh[offset + 4], udh[offset + 5]));
      }
      offset := offset + 2 + ieLen;
    }
    return None;
  }

  /** An information element of a header. */
  datatype Ie = Ie(iei: byte, data: seq<byte>) {
    predicate Valid() {
      |data| <= 255
    }

    function Octets(): seq<byte>
      requires Valid()
    {
      [iei, |data|] + data
    }

    function AsConcat(): Option<Concat> {
      if iei == IEI_CONCAT_8BIT && |data| == 3 then Some(Concat(data[0], data[1], data[2]))
      else if iei == IEI_CONCAT_16BIT && |data| == 4 then Some(Concat(BigEndian(data[..2]), data[2], data[3]))
      else None
    }
  }

  ghost predicate AllValid(ies: seq<Ie>) {
    forall i :: 0 <= i < |ies| ==> ies[i].Valid()
  }

  function IeOctets(ies: seq<Ie>): seq<byte>
    requires AllValid(ies)
  {
    if ies == [] then [] else ies[0].Octets() + IeOctets(ies[1..])
  }

  function FirstConcat(ies: seq<Ie>): Option<Concat> {
    if ies == [] then None
    else if ies[0].AsConcat().Some? then ies[0].AsConcat()
    else FirstConcat(ies[1..])
  }

  /** Reading one element of a header: report it if it is a concatenation element, or step over it. */
  lemma ReadElement(pre: seq<byte>, ie: Ie, post: seq<byte>, end: nat)
    requires ie.Valid() && |pre| + |ie.Octets()| <= end
    ensures ConcatFrom(pre + ie.Octets() + post, |pre|, end)
         == if ie.AsConcat().Some? then ie.AsConcat()
            else ConcatFrom(pre + ie.Octets() + post, |pre + ie.Octets()|, end)
  {
    hide BigEndian;
    var udh, o := pre + ie.Octets() + post, |pre|;
    assert udh[o..o + 2 + |ie.data|] == ie.Octets();
    assert udh[o] == ie.iei && udh[o + 1] == |ie.data|;
    assert udh[o + 2..o + 2 + |ie.data|] == ie.data;
    if ie.iei == IEI_CONCAT_16BIT && |ie.data| == 4 {
      assert udh[o + 2..o + 4] == ie.data[..2];
    }
  }

  lemma NoElements(udh: seq<byte>, offset: nat)
    ensures ConcatFrom(udh, offset, offset) == None
  {
  }

  lemma {:induction false} WalkElements(pre: seq<byte>, ies: seq<Ie>, rest: seq<byte>)
    requires AllValid(ies)
    ensures ConcatFrom(pre + IeOctets(ies) + rest, |pre|, |pre + IeOctets(ies)|) == FirstConcat(ies)
    decreases |ies|
  {
    hide Ie.Octets, Ie.AsConcat, ConcatFrom;
    if ies == [] {
      NoElements(pre + IeOctets(ies) + rest, |pre|);
    } else {
      var octets, tail := ies[0].Octets(), IeOctets(ies[1..]);
      ReadElement(pre, ies[0], tail + rest, |pre + IeOctets(ies)|);
      WalkElements(pre + octets, ies[1..], rest);
      assert pre + IeOctets(ies) + rest == pre + octets + (tail + rest) == (pre + octets) + tail + rest;
      assert pre + IeOctets(ies) == (pre + octets) + tail;
    }
  }

  /** The walk finds the first concatenation element, whatever comes before it and after the header. */
  lemma UdhFirstConcat(ies: seq<Ie>, rest: seq<byte>)
    requires AllValid(ies) && |IeOctets(ies)| <= 255
    ensures UdhConcat([|IeOctets(ies)|] + IeOctets(ies) + rest) == FirstConcat(ies)
  {
    WalkElements([|IeOctets(ies)|], ies, rest);
  }

  lemma UdhRoundTrip(ref: nat, total: nat, part: nat, rest: seq<byte>)
    ensures UdhConcat(EncodeUdhConcat(ref, total, part) + rest)
         == Some(Concat(ref % 256, total % 256, part % 256))
  {
    var ie := Ie(IEI_CONCAT_8BIT, [ref % 256, total % 256, part % 256]);
    assert IeOctets([ie]) == ie.Octets();
    assert EncodeUdhConcat(ref, total, part) == [5] + ie.Octets();
    UdhFirstConcat([ie], rest);
  }

  // ---- Splitting ----------------------------------------------------------

  const GSM7_SINGLE_LIMIT: nat := 160
  const GSM7_CONCAT_LIMIT: nat := 153
  const UCS2_SINGLE_LIMIT: nat := 70
  const UCS2_CONCAT_LIMIT: nat := 67

  function SingleLimit(dcs: Dcs): nat {
    if dcs.UCS2? then UCS2_SINGLE_LIMIT else GSM7_SINGLE_LIMIT
  }

  function ConcatLimit(dcs: Dcs): (n: nat)
    ensures n > 0
  {
    if dcs.UCS2? then UCS2_CONCAT_LIMIT else GSM7_CONCAT_LIMIT
  }

  function Chunks(text: string, limit: nat): seq<string>
    requires limit > 0
    decreases |text|
  {
    if text == "" then [] else [Take(text, limit)] + Chunks(Slice(text, limit, |text|), limit)
  }

  /** A text needs k parts when k - 1 of them are too short for it and k are not. */
  lemma {:induction false} ChunkCount(text: string, dcs: Dcs)
    ensures var k, limit := |Chunks(text, ConcatLimit(dcs))|, ConcatLimit(dcs);
            |text| <= k * limit && (text != "" ==> |text| > (k - 1) * limit)
    decreases |text|
  {
    if text != "" {
      ChunkCount(Slice(text, ConcatLimit(dcs), |text|), dcs);
    }
  }

  function Joined(chunks: seq<string>): string {
    if chunks == [] then "" else chunks[0] + Joined(chunks[1..])
  }

  /** Splitting loses nothing, and every part but the last is full. */
  lemma {:induction false} ChunksCover(text: string, limit: nat)
    requires limit > 0
    ensures Joined(Chunks(text, limit)) == text
    ensures var chunks := Chunks(text, limit);
            forall i :: 0 <= i < |chunks| ==> 0 < |chunks[i]| <= limit && (i + 1 < |chunks| ==> |chunks[i]| == limit)
    decreases |text|
  {
    if text != "" {
      var rest := Slice(text, limit, |text|);
      ChunksCover(rest, limit);
      assert text == Take(text, limit) + rest;
    }
  }

  function International(number: string): Address {
    Address(LstripPlus(number), 1, 1)
  }

  function LstripPlus(s: string): string {
    if s != "" && s[0] == '+' then LstripPlus(s[1..]) else s
  }

  function Created(destNumber: string, text: string, dcs: Dcs, msgRef: nat): Submit {
    Submit(msgRef, International(destNumber), 0, dcs, None, [], text, false, false, false, false)
  }

  /** Part i (from 1) of a split message. */
  function PartMessage(destNumber: string, chunk: string, dcs: Dcs, msgRef: nat,
                       ref: nat, total: nat, i: nat): Submit
    requires i >= 1
  {
    Submit((msgRef + i - 1) % 256, International(destNumber), 0, dcs, None,
           EncodeUdhConcat(ref, total, i) + (if dcs.UCS2? then Utf16.Encode(chunk) else Packed(chunk)),
           chunk, false, false, true, false)
  }

  function PartMessages(destNumber: string, chunks: seq<string>, dcs: Dcs, msgRef: nat,
                        ref: nat, n: nat): (parts: seq<Submit>)
    requires n <= |chunks|
    ensures |parts| == n
  {
    seq(n, i requires 0 <= i < n =>
      PartMessage(destNumber, chunks[i], dcs, msgRef, ref, |chunks|, i + 1))
  }

  /** The module's counter of reference numbers and the splitter that draws from it. */
  class Splitter {
    var concatRef: nat

    constructor ()
      ensures concatRef == 0
    {
      concatRef := 0;
    }

    method NextConcatRef() returns (ref: nat)
      modifies this
      ensures ref == old(concatRef)
      ensures concatRef == (old(concatRef) + 1) % 256
    {
      ref := concatRef;
      Pow2Small();
      AndMask(concatRef + 1, 8);
      LowSmall(concatRef + 1);
      concatRef := And(concatRef + 1, 0xFF);
    }

    method SplitMultipart(destNumber: string, text: string, dcs: Dcs, msgRef: nat) returns (result: seq<Submit>)
      modifies this
      ensures |text| <= SingleLimit(dcs) ==>
        result == [Created(destNumber, text, dcs, msgRef)] && concatRef == old(concatRef)
      ensures |text| > SingleLimit(dcs) ==> concatRef == (old(concatRef) + 1) % 256
      ensures |text| > SingleLimit(dcs) ==>
        var chunks := Chunks(text, ConcatLimit(dcs));
        result == PartMessages(destNumber, chunks, dcs, msgRef, old(concatRef), |chunks|)
    {
      hide Chunks, PartMessages, International;
      if |text| <= SingleLimit(dcs) {
        return [Created(destNumber, text, dcs, msgRef)];
      }
      var partsText := ChunkText(text, ConcatLimit(dcs));
      var ref := NextConcatRef();
      result := BuildParts(destNumber, partsText, dcs, msgRef, ref);
    }
  }

  method ChunkText(text: string, limit: nat) returns (parts: seq<string>)
    requires limit > 0
    ensures parts == Chunks(text, limit)
  {
    parts := [];
    var remaining := text;
    while remaining != ""
      invariant parts + Chunks(remaining, limit) == Chunks(text, limit)
      decreases |remaining|
    {
      parts := parts + [Take(remaining, limit)];
      remaining := Slice(remaining, limit, |remaining|);
    }
  }

  method BuildParts(destNumber: string, chunks: seq<string>, dcs: Dcs, msgRef: nat, ref: nat)
    returns (result: seq<Submit>)
    ensures result == PartMessages(destNumber, chunks, dcs, msgRef, ref, |chunks|)
  {
    hide PartMessage, International;
    result := [];
    for i := 0 to |chunks|
      invariant result == PartMessages(destNumber, chunks, dcs, msgRef, ref, i)
    {
      var msg := BuildPart(destNumber, chunks[i], dcs, msgRef, ref, |chunks|, i + 1);
      result := result + [msg];
    }
  }

  method BuildPart(destNumber: string, chunk: string, dcs: Dcs, msgRef: nat,
                   ref: nat, total: nat, i: nat) returns (msg: Submit)
    requires i >= 1
    ensures msg == PartMessage(destNumber, chunk, dcs, msgRef, ref, total, i)
  {
    hide EncodeUdhConcat, Utf16.Encode, Packed, International;
    var udh := EncodeUdhConcat(ref, total, i);
    var encodedText: seq<byte>;
    if dcs.UCS2? {
      encodedText := Utf16.Encode(chunk);
    } else {
      encodedText := EncodeGsm7(chunk);
    }
    msg := Submit((msgRef + i - 1) % 256, International(destNumber), 0, dcs, None,
                  udh + encodedText, chunk, false, false, true, false);
  }

  /** A receiver reads its place in the message off every part, if the message has at most 255. */
  lemma PartHeader(destNumber: string, chunks: seq<string>, dcs: Dcs, msgRef: nat, ref: nat, i: nat)
    requires i < |chunks| && ref < 256
    ensures UdhConcat(PartMessages(destNumber, chunks, dcs, msgRef, ref, |chunks|)[i].userData)
         == Some(Concat(ref, |chunks| % 256, (i + 1) % 256))
  {
    hide UdhConcat, Utf16.Encode, Packed, EncodeUdhConcat;
    var encoded := if dcs.UCS2? then Utf16.Encode(chunks[i]) else Packed(chunks[i]);
    UdhRoundTrip(ref, |chunks|, i + 1, encoded);
  }

  /**
   * On the wire, TP-UDL of a GSM 7-bit part counts the text's septets only, so a
   * reader takes exactly six octets too few; the other codings arrive whole.
   */
  lemma PartOnTheWire(destNumber: string, chunk: string, dcs: Dcs, msgRef: nat, ref: nat, total: nat, i: nat)
    requires i >= 1 && chunk != ""
    ensures var m := PartMessage(destNumber, chunk, dcs, msgRef, ref, total, i);
            var n := |m.userData| - (if dcs.GSM_7BIT? then 6 else 0);
            ReceivedSubmit(m).userData == m.userData[..n]
  {
    var m := PartMessage(destNumber, chunk, dcs, msgRef, ref, total, i);
    assert m.userData != [] && m.userData[..|m.userData|] == m.userData;
  }

  /**
   * What part i carries: six header octets, then the chunk in its coding; and the
   * number, the destination and the next message reference of its own.
   */
  lemma PartContents(destNumber: string, chunks: seq<string>, dcs: Dcs, msgRef: nat, ref: nat, i: nat)
    requires i < |chunks|
    ensures var m := PartMessages(destNumber, chunks, dcs, msgRef, ref, |chunks|)[i];
            && |m.userData| >= 6
            && m.userData[..6] == [5, 0, 3, ref % 256, |chunks| % 256, (i + 1) % 256]
            && (if dcs.UCS2? then Utf16.Decode(m.userData[6..]) == chunks[i]
                else Unpacked(m.userData[6..], |chunks[i]|) == Clean(chunks[i]))
            && m.dcs == dcs && m.text == chunks[i] && m.userDataHeader && m.messageRef == (msgRef + i) % 256
            && m.destination == International(destNumber)
  {
    hide Utf16.Encode, Utf16.Decode, Packed, Unpacked, Clean;
    var m := PartMessages(destNumber, chunks, dcs, msgRef, ref, |chunks|)[i];
    var encoded := if dcs.UCS2? then Utf16.Encode(chunks[i]) else Packed(chunks[i]);
    assert m.userData == [5, 0, 3, ref % 256, |chunks| % 256, (i + 1) % 256] + encoded;
    assert m.userData[6..] == encoded;
    Utf16.Utf16RoundTrip(chunks[i]);
    GsmRoundTrip(chunks[i]);
  }

  // ---- Reassembly ---------------------------------------------------------

  datatype Part = Part(number: int, total: int, text: string)

  /** Stable insertion by part number: `sorted(parts, key=...)`. */
  function Insert(sorted: seq<Part>, p: Part): seq<Part> {
    if sorted == [] || sorted[|sorted| - 1].number <= p.number then sorted + [p]
    else Insert(sorted[..|sorted| - 1], p) + [sorted[|sorted| - 1]]
  }

  function Sorted(parts: seq<Part>): seq<Part> {
    if parts == [] then [] else Insert(Sorted(parts[..|parts| - 1]), parts[|parts| - 1])
  }

  ghost predicate Ascending(parts: seq<Part>) {
    forall i, j :: 0 <= i < j < |parts| ==> parts[i].number <= parts[j].number
  }

  lemma AscendingAppend(parts: seq<Part>, contents: multiset<Part>, p: Part)
    requires Ascending(parts) && multiset(parts) == contents
    requires forall q :: q in contents ==> q.number <= p.number
    ensures Ascending(parts + [p])
  {
    forall i | 0 <= i < |parts|
      ensures parts[i].number <= p.number
    {
      assert parts[i] in multiset(parts);
    }
  }

  lemma LastIsGreatest(sorted: seq<Part>)
    requires Ascending(sorted) && sorted != []
    ensures forall q :: q in multiset(sorted) ==> q.number <= sorted[|sorted| - 1].number
  {
    forall q | q in multiset(sorted)
      ensures q.number <= sorted[|sorted| - 1].number
    {
      var i :| 0 <= i < |sorted| && sorted[i] == q;
    }
  }

  lemma OneAscends(p: Part)
    ensures Ascending([p])
  {
  }

  lemma {:induction false} InsertSorts(sorted: seq<Part>, p: Part)
    requires Ascending(sorted)
    ensures Ascending(Insert(sorted, p))
    ensures multiset(Insert(sorted, p)) == multiset(sorted) + multiset{p}
  {
    hide Ascending;
    if sorted == [] {
      OneAscends(p);
      assert sorted + [p] == [p];
    } else {
      var init, last := sorted[..|sorted| - 1], sorted[|sorted| - 1];
      LastIsGreatest(sorted);
      if last.number <= p.number {
        AscendingAppend(sorted, multiset(sorted), p);
      } else {
        FrontAscends(sorted);
        InsertSorts(init, p);
        InsertedBefore(sorted, init, last, p);
        AscendingAppend(Insert(init, p), multiset(init) + multiset{p}, last);
      }
    }
  }

  lemma FrontAscends(sorted: seq<Part>)
    requires Ascending(sorted) && sorted != []
    ensures Ascending(sorted[..|sorted| - 1])
  {
  }

  lemma InsertedBefore(sorted: seq<Part>, init: seq<Part>, last: Part, p: Part)
    requires sorted == init + [last] && last.number > p.number
    requires multiset(Insert(init, p)) == multiset(init) + multiset{p}
    requires forall q :: q in multiset(sorted) ==> q.number <= last.number
    ensures Insert(sorted, p) == Insert(init, p) + [last]
    ensures multiset(Insert(sorted, p)) == multiset(sorted) + multiset{p}
    ensures forall q :: q in multiset(init) + multiset{p} ==> q.number <= last.number
  {
    assert sorted[..|sorted| - 1] == init;
    forall q | q in multiset(init)
      ensures q.number <= last.number
    {
      assert q in multiset(sorted);
    }
  }

  lemma {:induction false} SortedSorts(parts: seq<Part>)
    ensures Ascending(Sorted(parts))
    ensures multiset(Sorted(parts)) == multiset(parts)
  {
    if parts != [] {
      var init, last := parts[..|parts| - 1], parts[|parts| - 1];
      assert parts == init + [last];
      SortedSorts(init);
      InsertSorts(Sorted(init), last);
    }
  }

  /** The parts carry the numbers 1, 2, ... in this order. */
  ghost predicate Numbered(parts: seq<Part>) {
    forall i :: 0 <= i < |parts| ==> parts[i].number == i + 1
  }

  lemma LastsAgree(a: seq<Part>, b: seq<Part>)
    requires Ascending(a) && Numbered(b) && multiset(a) == multiset(b) && a != [] && b != []
    ensures a[|a| - 1] == b[|b| - 1]
  {
    var x, y := a[|a| - 1], b[|b| - 1];
    assert x in multiset(b) && y in multiset(a);
    var i :| 0 <= i < |b| && b[i] == x;
    var j :| 0 <= j < |a| && a[j] == y;
    assert y.number <= x.number;
  }

  lemma DropLast(a: seq<Part>)
    requires a != []
    ensures multiset(a[..|a| - 1]) == multiset(a) - multiset{a[|a| - 1]}
  {
    assert a == a[..|a| - 1] + [a[|a| - 1]];
  }

  /** An ascending arrangement of numbered parts is the numbered one. */
  lemma {:induction false} NumberedUnique(a: seq<Part>, b: seq<Part>)
    requires Ascending(a) && Numbered(b) && multiset(a) == multiset(b)
    ensures a == b
  {
    SameSize(a, b);
    if b != [] {
      LastsAgree(a, b);
      DropLast(a);
      DropLast(b);
      NumberedUnique(a[..|a| - 1], b[..|b| - 1]);
      assert a == a[..|a| - 1] + [a[|a| - 1]] && b == b[..|b| - 1] + [b[|b| - 1]];
    }
  }

  lemma SameSize(a: seq<Part>, b: seq<Part>)
    requires multiset(a) == multiset(b)
    ensures |a| == |b|
  {
    assert |multiset(a)| == |a| && |multiset(b)| == |b|;
  }

  function Texts(parts: seq<Part>): string {
    if parts == [] then "" else Texts(parts[..|parts| - 1]) + parts[|parts| - 1].text
  }

  /**
   * The parts are a complete message: some arrangement of them is numbered
   * 1, 2, ..., and part 1 announces as many parts as there are.
   */
  ghost predicate Arranges(parts: seq<Part>, arranged: seq<Part>) {
    && multiset(parts) == multiset(arranged)
    && arranged != [] && Numbered(arranged) && arranged[0].total == |arranged|
  }

  lemma OnlySorted(parts: seq<Part>)
    ensures forall arranged :: Arranges(parts, arranged) ==> parts != [] && arranged == Sorted(parts)
    ensures multiset(parts) == multiset(Sorted(parts)) && |Sorted(parts)| == |parts|
  {
    SortedSorts(parts);
    SameSize(parts, Sorted(parts));
    forall arranged | Arranges(parts, arranged)
      ensures parts != [] && arranged == Sorted(parts)
    {
      SameSize(parts, arranged);
      NumberedUnique(Sorted(parts), arranged);
    }
  }

  /** Joins the parts when, and only when, they are a complete message; in part order. */
  method ReassembleMultipart(parts: seq<Part>) returns (r: Option<string>)
    ensures forall arranged :: Arranges(parts, arranged) ==> r == Some(Texts(arranged))
    ensures r.Some? ==> exists arranged :: Arranges(parts, arranged)
  {
    hide Sorted, Insert;
    OnlySorted(parts);
    if parts == [] {
      return None;
    }
    var sortedParts := Sorted(parts);
    var total := sortedParts[0].total;
    if |sortedParts| != total {
      return None;
    }
    for i := 0 to |sortedParts|
      invariant Numbered(sortedParts[..i])
    {
      if sortedParts[i].number != i + 1 {
        return None;
      }
    }
    TakeAll(sortedParts);
    assert Arranges(parts, sortedParts);
    var text := "";
    for i := 0 to |sortedParts|
      invariant text == Texts(sortedParts[..i])
    {
      TakeNext(sortedParts, i);
      text := text + sortedParts[i].text;
    }
    TakeAll(sortedParts);
    r := Some(text);
  }

  /** What a receiver collects from the parts of a message: header numbers and text. */
  function CollectedParts(chunks: seq<string>, n: nat): (parts: seq<Part>)
    requires n <= |chunks|
    ensures |parts| == n
  {
    seq(n, i requires 0 <= i < n => Part((i + 1) % 256, |chunks| % 256, chunks[i]))
  }

  lemma {:induction false} TextsOfChunks(chunks: seq<string>, n: nat)
    requires n <= |chunks|
    ensures Texts(CollectedParts(chunks, n)) == Joined(chunks[..n])
  {
    if n > 0 {
      var parts := CollectedParts(chunks, n);
      assert parts[..n - 1] == CollectedParts(chunks, n - 1);
      TextsOfChunks(chunks, n - 1);
      TakeNext(chunks, n - 1);
      JoinedAppend(chunks[..n - 1], chunks[n - 1]);
    }
  }

  lemma {:induction false} JoinedAppend(chunks: seq<string>, c: string)
    ensures Joined(chunks + [c]) == Joined(chunks) + c
  {
    if chunks != [] {
      JoinedAppend(chunks[1..], c);
      assert (chunks + [c])[1..] == chunks[1..] + [c];
    }
  }

  lemma FewArrange(chunks: seq<string>, received: seq<Part>)
    requires 0 < |chunks| <= 255 && multiset(received) == multiset(CollectedParts(chunks, |chunks|))
    ensures Arranges(received, CollectedParts(chunks, |chunks|))
  {
  }

  /** Parts numbered as they were cut arrange, in whatever order they arrive, exactly when there are at most 255. */
  lemma ChunksArrange(chunks: seq<string>, received: seq<Part>)
    requires chunks != [] && multiset(received) == multiset(CollectedParts(chunks, |chunks|))
    ensures var sent := CollectedParts(chunks, |chunks|);
            if |chunks| <= 255 then Arranges(received, sent) && Texts(sent) == Joined(chunks)
            else forall arranged :: !Arranges(received, arranged)
  {
    hide Joined, Texts, Arranges;
    if |chunks| <= 255 {
      TextsOfChunks(chunks, |chunks|);
      TakeAll(chunks);
      FewArrange(chunks, received);
    } else {
      forall arranged
        ensures !Arranges(received, arranged)
      {
        SameNumbers(chunks, received, arranged);
      }
    }
  }

  /**
   * A split text comes back from its parts in whatever order they arrive, with the
   * numbers read from their headers, exactly when it needs at most 255 parts.
   */
  lemma MultipartArranges(text: string, dcs: Dcs, received: seq<Part>)
    requires |text| > SingleLimit(dcs)
    requires var chunks := Chunks(text, ConcatLimit(dcs));
             multiset(received) == multiset(CollectedParts(chunks, |chunks|))
    ensures var chunks := Chunks(text, ConcatLimit(dcs));
            var sent := CollectedParts(chunks, |chunks|);
            if |text| <= 255 * ConcatLimit(dcs) then Arranges(received, sent) && Texts(sent) == text
            else forall arranged :: !Arranges(received, arranged)
  {
    hide Chunks, Joined, Texts, Arranges;
    var chunks := Chunks(text, ConcatLimit(dcs));
    ChunkCount(text, dcs);
    ChunksCover(text, ConcatLimit(dcs));
    ChunksArrange(chunks, received);
  }

  // ---- From the parts as sent ---------------------------------------------

  /** What a receiver reads from a part: its numbers from the header, its text from the octets behind it. */
  function ReadPart(dcs: Dcs, userData: seq<byte>, septets: nat): Part {
    match UdhConcat(userData)
    case None => Part(0, 0, "")
    case Some(concat) =>
      var rest := Slice(userData, 6, |userData|);
      Part(concat.part, concat.total, if dcs.UCS2? then Utf16.Decode(rest) else Unpacked(rest, septets))
  }

  /** The parts of a split message, each read from the user data it was given */
  function SentParts(messages: seq<Submit>): (parts: seq<Part>)
    ensures |parts| == |messages|
  {
    seq(|messages|, i requires 0 <= i < |messages| => ReadPart(messages[i].dcs, messages[i].userData, |messages[i].text|))
  }

  /** The same, each read as its receiver has it */
  function ArrivedParts(messages: seq<Submit>): (parts: seq<Part>)
    ensures |parts| == |messages|
  {
    seq(|messages|, i requires 0 <= i < |messages| =>
      ReadPart(ReceivedSubmit(messages[i]).dcs, ReceivedSubmit(messages[i]).userData, |messages[i].text|))
  }

  /** What the coding carries of the text */
  function Carried(dcs: Dcs, text: string): (t: string)
    ensures |t| == |text|
  {
    if dcs.UCS2? then text else Clean(text)
  }

  function AllCarried(dcs: Dcs, chunks: seq<string>): (cs: seq<string>)
    ensures |cs| == |chunks| && forall i :: 0 <= i < |chunks| ==> cs[i] == Carried(dcs, chunks[i])
  {
    seq(|chunks|, i requires 0 <= i < |chunks| => Carried(dcs, chunks[i]))
  }

  lemma SentAreCollected(destNumber: string, chunks: seq<string>, dcs: Dcs, msgRef: nat, ref: nat)
    requires ref < 256
    ensures SentParts(PartMessages(destNumber, chunks, dcs, msgRef, ref, |chunks|))
            == CollectedParts(AllCarried(dcs, chunks), |chunks|)
  {
    hide UdhConcat, PartMessage, Utf16.Decode, Unpacked, Clean;
    var messages := PartMessages(destNumber, chunks, dcs, msgRef, ref, |chunks|);
    forall i | 0 <= i < |chunks|
      ensures SentParts(messages)[i] == CollectedParts(AllCarried(dcs, chunks), |chunks|)[i]
    {
      PartReads(destNumber, chunks, dcs, msgRef, ref, i);
    }
  }

  lemma PartReads(destNumber: string, chunks: seq<string>, dcs: Dcs, msgRef: nat, ref: nat, i: nat)
    requires i < |chunks| && ref < 256
    ensures var m := PartMessages(destNumber, chunks, dcs, msgRef, ref, |chunks|)[i];
            ReadPart(m.dcs, m.userData, |m.text|) == Part((i + 1) % 256, |chunks| % 256, Carried(dcs, chunks[i]))
  {
    hide UdhConcat, PartMessage, Utf16.Decode, Unpacked, Clean;
    PartHeader(destNumber, chunks, dcs, msgRef, ref, i);
    PartContents(destNumber, chunks, dcs, msgRef, ref, i);
    var u := PartMessages(destNumber, chunks, dcs, msgRef, ref, |chunks|)[i].userData;
    assert Slice(u, 6, |u|) == u[6..];
  }

  lemma {:induction false} JoinedCarried(dcs: Dcs, chunks: seq<string>)
    ensures Joined(AllCarried(dcs, chunks)) == Carried(dcs, Joined(chunks))
  {
    if chunks != [] {
      JoinedCarried(dcs, chunks[1..]);
      assert AllCarried(dcs, chunks)[1..] == AllCarried(dcs, chunks[1..]);
      CarriedJoin(dcs, chunks[0], Joined(chunks[1..]));
    }
  }

  lemma CarriedJoin(dcs: Dcs, a: string, b: string)
    ensures Carried(dcs, a + b) == Carried(dcs, a) + Carried(dcs, b)
  {
    hide Code;
  }

  /**
   * The parts that splitting sends, their numbers and texts read from the user data,
   * give back what the coding carries of the text in whatever order they come, if and
   * only if at most 255 are needed; UCS-2 parts also as their receiver has them.
   */
  lemma SentPartsArrange(destNumber: string, text: string, dcs: Dcs, msgRef: nat, ref: nat, received: seq<Part>)
    requires |text| > SingleLimit(dcs) && ref < 256
    requires var chunks := Chunks(text, ConcatLimit(dcs));
             multiset(received) == multiset(SentParts(PartMessages(destNumber, chunks, dcs, msgRef, ref, |chunks|)))
    ensures var chunks := Chunks(text, ConcatLimit(dcs));
            var sent := SentParts(PartMessages(destNumber, chunks, dcs, msgRef, ref, |chunks|));
            && (if |text| <= 255 * ConcatLimit(dcs) then Arranges(received, sent) && Texts(sent) == Carried(dcs, text)
                else forall arranged :: !Arranges(received, arranged))
            && (dcs.UCS2? ==> ArrivedParts(PartMessages(destNumber, chunks, dcs, msgRef, ref, |chunks|)) == sent)
  {
    hide Chunks, Joined, Texts, Arranges, PartMessages, SentParts, ArrivedParts, Carried;
    var chunks := Chunks(text, ConcatLimit(dcs));
    ChunkCount(text, dcs);
    ChunksCover(text, ConcatLimit(dcs));
    SentAreCollected(destNumber, chunks, dcs, msgRef, ref);
    ChunksArrange(AllCarried(dcs, chunks), received);
    JoinedCarried(dcs, chunks);
    if dcs.UCS2? {
      ArriveWhole(destNumber, chunks, dcs, msgRef, ref);
    }
  }

  lemma ArriveWhole(destNumber: string, chunks: seq<string>, dcs: Dcs, msgRef: nat, ref: nat)
    requires dcs.UCS2? && forall c :: c in chunks ==> c != ""
    ensures var messages := PartMessages(destNumber, chunks, dcs, msgRef, ref, |chunks|);
            ArrivedParts(messages) == SentParts(messages)
  {
    hide ReadPart, PartMessage, ReceivedSubmit;
    var messages := PartMessages(destNumber, chunks, dcs, msgRef, ref, |chunks|);
    forall i | 0 <= i < |chunks|
      ensures ArrivedParts(messages)[i] == SentParts(messages)[i]
    {
      assert chunks[i] in chunks;
      PartOnTheWire(destNumber, chunks[i], dcs, msgRef, ref, |chunks|, i + 1);
      PartContents(destNumber, chunks, dcs, msgRef, ref, i);
      SameCoding(messages[i]);
      assert messages[i].userData[..|messages[i].userData|] == messages[i].userData;
    }
  }

  lemma SameCoding(m: Submit)
    ensures ReceivedSubmit(m).dcs == m.dcs
  {
  }

  lemma SameNumbers(chunks: seq<string>, received: seq<Part>, arranged: seq<Part>)
    requires |chunks| > 255
    requires multiset(received) == multiset(CollectedParts(chunks, |chunks|))
    ensures !Arranges(received, arranged)
  {
    var sent := CollectedParts(chunks, |chunks|);
    if multiset(received) == multiset(arranged) {
      SameSize(sent, arranged);
      var p := arranged[255];
      assert p in multiset(sent);
      var i :| 0 <= i < |sent| && sent[i] == p;
      assert p.number < 256;
    }
  }
}
