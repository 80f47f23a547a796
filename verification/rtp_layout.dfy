/**
 * RTP packets and telephone events on the wire, field by field: section 5.1 of RFC
 * 3550 and section 2.3 of RFC 4733.
 */
module RtpLayout {
  import opened Bits
  import opened Digits
  import opened Flags
  import opened Media
  import opened Python
  import opened Rtp
  import opened Wrappers

  /**
   * A packet: version, padding, extension and source count, marker and type, then
   * sequence number, timestamp and SSRC most significant octet first, the sources, and
   * the payload.
   */
  lemma PacketLayout(p: Packet)
    requires p.version == 2 && !p.padding && !p.extension && p.csrcCount == |p.csrcList| < 16
    ensures PacketBytes(p).Ok?
    ensures var bs := PacketBytes(p).value;
            && |bs| == 12 + 4 * |p.csrcList| + |p.payload|
            && bs[0] == 128 + |p.csrcList| && bs[1] as int == (if p.marker then 128 else 0) + p.payloadType % 128
            && BigEndian(bs[2..4]) == p.sequenceNumber % 0x1_0000
            && BigEndian(bs[4..8]) == p.timestamp % 0x1_0000_0000
            && BigEndian(bs[8..12]) == p.ssrc % 0x1_0000_0000
            && bs[12 + 4 * |p.csrcList|..] == p.payload
  {
    hide BigEndian, BigBytes, Octet0, Octet1, CsrcBytes, Pow2;
    var octet0, octet1, n := Octet0(p.version, p.padding, p.extension, p.csrcCount), Octet1(p.marker, p.payloadType), |p.csrcList|;
    FirstOctet(p);
    SecondOctet(p.marker, p.payloadType);
    assert Take(p.csrcList, p.csrcCount) == p.csrcList;
    CsrcSize(p.csrcList);
    Low16(p.sequenceNumber);
    Low32(p.timestamp);
    Low32(p.ssrc);
    var bs := PacketBytes(p).value;
    var a, b, c := BigBytes(p.sequenceNumber, 2), BigBytes(p.timestamp, 4), BigBytes(p.ssrc, 4);
    assert bs == [octet0, octet1] + a + b + c + CsrcBytes(p.csrcList) + p.payload;
    assert bs[2..4] == a && bs[4..8] == b && bs[8..12] == c;
  }

  lemma FirstOctet(p: Packet)
    requires p.version == 2 && !p.padding && !p.extension && p.csrcCount < 16
    ensures Octet0(p.version, p.padding, p.extension, p.csrcCount) == 128 + p.csrcCount
  {
    hide Octet0;
    ShlSmall(8);
  }

  lemma SecondOctet(marker: bool, payloadType: nat)
    ensures Octet1(marker, payloadType) as int == (if marker then 128 else 0) + payloadType % 128
  {
    hide Octet1;
    ShlSmall(BitOf(marker));
  }

  lemma Low32(v: nat)
    ensures BigEndian(BigBytes(v, 4)) == v % 0x1_0000_0000
  {
    hide BigEndian, BigBytes;
    LastOctet(v, 4);
    LastOctet(v / 256, 3);
    Low16(v / 256 / 256);
    ThreeCuts(v);
  }

  lemma ThreeCuts(v: nat)
    ensures (v / 256 / 256 % 0x1_0000 * 256 + v / 256 % 256) * 256 + v % 256 == v % 0x1_0000_0000
  {
    var a, b, r := v % 256, v / 256 % 256, v / 256 / 256;
    var q, w := r / 0x1_0000, r % 0x1_0000;
    Parts(v, a, b, r);
    Unique(v, q, a + 256 * b + 0x1_0000 * w);
  }

  lemma Parts(v: nat, a: nat, b: nat, r: nat)
    requires a == v % 256 && b == v / 256 % 256 && r == v / 256 / 256
    ensures v == a + 256 * b + 0x1_0000 * r
  {
  }

  lemma Unique(v: nat, q: nat, rest: nat)
    requires v == 0x1_0000_0000 * q + rest && rest < 0x1_0000_0000
    ensures v % 0x1_0000_0000 == rest
  {
  }

  /**
   * What the far end reads in datagram i of a session: consecutive numbers, the
   * clock of the audio sent before, the session's source, and the item itself.
   */
  lemma WireReads(profile: Profile, items: seq<Item>, i: nat)
    requires i < |items| && profile.payloadType < 128
    ensures ParsePacket(Wire(profile, items)[i]).Ok?
    ensures var p := ParsePacket(Wire(profile, items)[i]).value;
            && p.sequenceNumber == i % 0x1_0000
            && p.timestamp == AudioCount(items[..i]) * profile.samplesPerFrame % 0x1_0000_0000
            && p.ssrc == profile.ssrc % 0x1_0000_0000 && p.csrcList == []
            && p.marker == items[i].marker
            && (items[i].Audio? ==> p.payloadType == profile.payloadType && p.payload == items[i].frame)
            && (items[i].Dtmf? ==> p.payloadType == 101 && p.payload == items[i].event)
  {
    hide PacketBytes, ParsePacket, AudioCount;
    RtpRoundTrip(PacketAt(profile, items, i));
  }

  /**
   * What a key sends: up to five events of its code, the mark on the first alone,
   * durations that grow to the last, and the end said three times; it stops at the
   * first whose duration does not fit 16 bits.
   */
  lemma DtmfEvents(code: nat, samples: int)
    requires code < 16
    ensures var items := DtmfItems(code, samples);
            && |items| == (if samples < 0 || samples / 3 >= 0x1_0000 then 0
                           else if samples * 2 / 3 >= 0x1_0000 then 1
                           else if samples >= 0x1_0000 then 2
                           else 5)
            && (forall i :: 0 <= i < |items| ==> items[i].Dtmf? && (items[i].marker <==> i == 0))
            && (|items| > 0 ==> ReadEvent(items[0].event) == Some((code, false, 10, samples / 3)))
            && (|items| > 1 ==> ReadEvent(items[1].event) == Some((code, false, 10, samples * 2 / 3)))
            && forall i :: 2 <= i < |items| ==> ReadEvent(items[i].event) == Some((code, true, 10, samples))
  {
    hide ReadEvent;
    if 0 <= samples && samples / 3 < 0x1_0000 {
      EventFits(code, false, samples / 3);
      if samples * 2 / 3 < 0x1_0000 {
        EventFits(code, false, samples * 2 / 3);
        if samples < 0x1_0000 {
          EventFits(code, true, samples);
        }
      }
    }
  }

  /** A duration in clock ticks, cut towards zero */
  lemma SamplesCut(durationMs: int, clockRate: nat)
    ensures var product, n := durationMs * clockRate, Samples(durationMs, clockRate);
            if durationMs >= 0 then 1000 * n <= product < 1000 * n + 1000 else 1000 * n - 1000 < product <= 1000 * n
  {
    var product := durationMs * clockRate;
    assert durationMs >= 0 ==> product >= 0;
    assert durationMs < 0 ==> product <= 0;
  }

  lemma EventFits(code: nat, end: bool, duration: nat)
    requires code < 16 && duration < 0x1_0000
    ensures EventPayload(code, end, duration).Ok?
    ensures ReadEvent(EventPayload(code, end, duration).value) == Some((code, end, 10, duration))
  {
    hide ReadEvent;
    EventArrives(code, end, duration);
  }

  /** The keys in the order of their codes */
  lemma KeyCodes(digit: string)
    ensures EventCode(digit).Some? <==> |digit| == 1 && (('0' <= digit[0] <= '9') || digit[0] == '*' || digit[0] == '#' || 'A' <= digit[0] <= 'D')
    ensures |digit| == 1 && '0' <= digit[0] <= '9' ==> EventCode(digit) == Some(digit[0] as nat - '0' as nat)
    ensures EventCode("*") == Some(10) && EventCode("#") == Some(11)
    ensures |digit| == 1 && 'A' <= digit[0] <= 'D' ==> EventCode(digit) == Some(digit[0] as nat - 'A' as nat + 12)
  {
    var keys := DTMF_KEYS;
    assert forall i :: 0 <= i < 16 ==> keys[i] == KeyOf(i);
    assert "*" == [KeyOf(10)] && "#" == [KeyOf(11)];
    if |digit| == 1 {
      var i := if '0' <= digit[0] <= '9' then digit[0] as nat - 48
               else if 'A' <= digit[0] <= 'D' then digit[0] as nat - 53
               else if digit[0] == '*' then 10 else 11;
      if '0' <= digit[0] <= '9' || 'A' <= digit[0] <= 'D' || digit[0] == '*' || digit[0] == '#' {
        assert digit == [KeyOf(i)] == [keys[i]];
      }
    }
    forall i, j | 0 <= i < 16 && 0 <= j < 16 && KeyOf(i) == KeyOf(j)
      ensures i == j
    {
    }
  }

  /** 0 to 9, then * and #, then A to D */
  function KeyOf(i: nat): char
    requires i < 16
  {
    if i < 10 then (48 + i) as char else if i == 10 then '*' else if i == 11 then '#' else (53 + i) as char
  }

  // ---- Extension and padding ----------------------------------------------

  /** Two octets of the profile's own, the extension's length in words, and the words */
  function ExtensionBytes(p: Packet, own: seq<byte>, words: seq<byte>): seq<byte> {
    if p.extension then own + BigBytes(|words| / 4, 2) + words else []
  }

  /** The octets section 5.1 of RFC 3550 gives a packet, its extension and padding included */
  function StandardBytes(p: Packet, own: seq<byte>, words: seq<byte>, pad: seq<byte>): seq<byte>
    requires p.csrcCount < 16 && p.payloadType < 128
  {
    [128 + 32 * BitOf(p.padding) + 16 * BitOf(p.extension) + p.csrcCount, 128 * BitOf(p.marker) + p.payloadType] + CounterBytes(p)
    + CsrcBytes(p.csrcList) + ExtensionBytes(p, own, words) + p.payload + if p.padding then pad else []
  }

  /**
   * A packet with any extension and any padding reads as its fields and its bare
   * payload: the extension is stepped over, and the last octet tells the padding.
   */
  lemma StandardReads(p: Packet, own: seq<byte>, words: seq<byte>, pad: seq<byte>)
    requires p.version == RTP_VERSION && Fits(p) && |p.csrcList| == p.csrcCount
    requires |own| == 2 && |words| % 4 == 0 && |words| / 4 < 0x1_0000
    requires p.padding ==> 0 < |pad| < 256 && pad[|pad| - 1] as int == |pad|
    ensures ParsePacket(StandardBytes(p, own, words, pad)) == Ok(p)
  {
    hide BigEndian, BigBytes, CsrcsAt, CsrcBytes, HasFlag, And, VersionField, ExtensionBytes, Slice, ParsePacket, FixedHeader,
         StandardBytes;
    var e, tail := ExtensionBytes(p, own, words), if p.padding then pad else [];
    var data, front := StandardBytes(p, own, words, pad), FixedHeader(p) + CsrcBytes(p.csrcList);
    CsrcSize(p.csrcList);
    StandardShape(p, own, words, pad);
    HeadReads(p, data, CsrcBytes(p.csrcList) + (e + p.payload + tail));
    SourcesRead(p, e + p.payload + tail);
    RestReads(p, front, own, words, pad);
    ParseWith(p, data, front, e, tail);
  }

  lemma StandardShape(p: Packet, own: seq<byte>, words: seq<byte>, pad: seq<byte>)
    requires p.version == RTP_VERSION && p.csrcCount < 16 && p.payloadType < 128
    ensures var e, tail := ExtensionBytes(p, own, words), if p.padding then pad else [];
            && StandardBytes(p, own, words, pad) == FixedHeader(p) + (CsrcBytes(p.csrcList) + (e + p.payload + tail))
            && StandardBytes(p, own, words, pad) == FixedHeader(p) + CsrcBytes(p.csrcList) + e + p.payload + tail
  {
    hide ExtensionBytes, FixedHeader, CsrcBytes;
    FrontIs(p);
    Grouped(FixedHeader(p), CsrcBytes(p.csrcList), ExtensionBytes(p, own, words), p.payload, if p.padding then pad else []);
  }

  lemma Grouped(a: seq<byte>, b: seq<byte>, c: seq<byte>, d: seq<byte>, e: seq<byte>)
    ensures a + (b + (c + d + e)) == a + b + c + d + e
  {
  }

  lemma FrontIs(p: Packet)
    requires p.version == RTP_VERSION && p.csrcCount < 16 && p.payloadType < 128
    ensures FixedHeader(p)
            == [128 + 32 * BitOf(p.padding) + 16 * BitOf(p.extension) + p.csrcCount, 128 * BitOf(p.marker) + p.payloadType] + CounterBytes(p)
  {
    hide CounterBytes, Octet0, Octet1, Shl;
    ShlSmall(8 + 2 * BitOf(p.padding) + BitOf(p.extension));
  }

  lemma HeadReads(p: Packet, data: seq<byte>, rest: seq<byte>)
    requires p.version == RTP_VERSION && Fits(p) && data == FixedHeader(p) + rest
    ensures VersionField(data[0]) == RTP_VERSION
    ensures HasFlag(data[0], 5) == p.padding && HasFlag(data[0], 4) == p.extension && And(data[0], 0x0F) == p.csrcCount
    ensures HasFlag(data[1], 7) == p.marker && And(data[1], 0x7F) == p.payloadType
    ensures BigEndian(data[2..4]) == p.sequenceNumber && BigEndian(data[4..8]) == p.timestamp && BigEndian(data[8..12]) == p.ssrc
  {
    hide BigEndian, BigBytes, HasFlag, And, VersionField, Octet0, Octet1;
    var head := FixedHeader(p);
    ReadOctet0(p.version, p.padding, p.extension, p.csrcCount, head[0]);
    ReadOctet1(p.marker, p.payloadType);
    CounterFields(p, data, head[..2], rest);
    CounterRoundTrip(p.sequenceNumber, 2);
    CounterRoundTrip(p.timestamp, 4);
    CounterRoundTrip(p.ssrc, 4);
  }

  lemma SourcesRead(p: Packet, rest: seq<byte>)
    requires p.version == RTP_VERSION && Fits(p) && |p.csrcList| == p.csrcCount
    ensures CsrcsAt(FixedHeader(p) + (CsrcBytes(p.csrcList) + rest), 12, p.csrcCount) == p.csrcList
  {
    hide BigEndian, BigBytes, CsrcsAt, CsrcBytes, FixedHeader;
    var head, n := FixedHeader(p), p.csrcCount;
    var data := head + CsrcBytes(p.csrcList) + rest;
    assert data == head + (CsrcBytes(p.csrcList) + rest);
    CsrcRoundTrip(head, p.csrcList, rest, n);
    SourcesSurvive(p.csrcList, CsrcsAt(data, 12, n));
  }

  /** Behind the sources: where the payload starts and ends */
  lemma RestReads(p: Packet, front: seq<byte>, own: seq<byte>, words: seq<byte>, pad: seq<byte>)
    requires |own| == 2 && |words| % 4 == 0 && |words| / 4 < 0x1_0000
    requires p.padding ==> 0 < |pad| < 256 && pad[|pad| - 1] as int == |pad|
    ensures var e, tail := ExtensionBytes(p, own, words), if p.padding then pad else [];
            var data, o := front + e + p.payload + tail, |front|;
            && (p.extension ==> o + 4 <= |data| && 4 + 4 * BigEndian(data[o + 2..o + 4]) == |e|)
            && (!p.extension ==> e == [])
            && (p.padding ==> |data| > o + |e| && data[|data| - 1] as int == |tail|)
            && Slice(data, o + |e|, |data| - |tail|) == p.payload
  {
    hide BigEndian, BigBytes, ExtensionBytes;
    var e, tail := ExtensionBytes(p, own, words), if p.padding then pad else [];
    var data, o := front + e + p.payload + tail, |front|;
    if p.extension {
      ExtensionReads(p, own, words);
      assert data[o + 2..o + 4] == e[2..4];
    } else {
      assert e == [] by {
        NoExtension(p, own, words);
      }
    }
    assert data[o + |e|..|data| - |tail|] == p.payload;
  }

  lemma ExtensionReads(p: Packet, own: seq<byte>, words: seq<byte>)
    requires p.extension && |own| == 2 && |words| % 4 == 0 && |words| / 4 < 0x1_0000
    ensures var e := ExtensionBytes(p, own, words);
            |e| >= 4 && 4 + 4 * BigEndian(e[2..4]) == |e|
  {
    hide BigEndian, BigBytes;
    Low16(|words| / 4);
    var e := ExtensionBytes(p, own, words);
    assert e[2..4] == BigBytes(|words| / 4, 2);
  }

  lemma NoExtension(p: Packet, own: seq<byte>, words: seq<byte>)
    requires !p.extension
    ensures ExtensionBytes(p, own, words) == []
  {
  }

  lemma ParseWith(p: Packet, data: seq<byte>, front: seq<byte>, e: seq<byte>, tail: seq<byte>)
    requires data == front + e + p.payload + tail && |front| == 12 + 4 * p.csrcCount
    requires p.version == RTP_VERSION && VersionField(data[0]) == RTP_VERSION
    requires HasFlag(data[0], 5) == p.padding && HasFlag(data[0], 4) == p.extension && And(data[0], 0x0F) == p.csrcCount
    requires HasFlag(data[1], 7) == p.marker && And(data[1], 0x7F) == p.payloadType
    requires BigEndian(data[2..4]) == p.sequenceNumber && BigEndian(data[4..8]) == p.timestamp && BigEndian(data[8..12]) == p.ssrc
    requires CsrcsAt(data, 12, p.csrcCount) == p.csrcList && |p.csrcList| == p.csrcCount
    requires var o := |front|;
             && (p.extension ==> o + 4 <= |data| && 4 + 4 * BigEndian(data[o + 2..o + 4]) == |e|)
             && (!p.extension ==> e == []) && (!p.padding ==> tail == [])
             && (p.padding ==> |data| > o + |e| && data[|data| - 1] as int == |tail|)
             && Slice(data, o + |e|, |data| - |tail|) == p.payload
    ensures ParsePacket(data) == Ok(p)
  {
    hide BigEndian, CsrcsAt, HasFlag, And, VersionField, Slice;
  }
}
