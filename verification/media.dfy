/**
 * Media sessions: what a session sends, what it feeds its jitter buffer, and the
 * stream that comes out of the far end.
 */
module Media {
  import opened Bits
  import opened Digits
  import opened Jitter
  import opened Rtp
  import opened Wrappers

  /** One packet of a session: an audio frame, or a telephone event (RFC 4733). */
  datatype Item = Audio(frame: seq<byte>, marker: bool) | Dtmf(event: seq<byte>, marker: bool)

  /** What stays fixed while a session runs. */
  datatype Profile = Profile(payloadType: nat, ssrc: nat, samplesPerFrame: nat)

  function AudioCount(items: seq<Item>): nat {
    if items == [] then 0
    else AudioCount(items[..|items| - 1]) + (if items[|items| - 1].Audio? then 1 else 0)
  }

  // ---- Telephone events (RFC 4733) ----------------------------------------

  const DTMF_KEYS := "0123456789*#ABCD"

  /** A key's event code */
  function EventCode(digit: string): (code: Option<nat>)
    ensures code.Some? ==> code.value < 16 && digit == [DTMF_KEYS[code.value]]
    ensures code.None? ==> forall i :: 0 <= i < 16 ==> digit != [DTMF_KEYS[i]]
  {
    KeyFrom(digit, 0)
  }

  function KeyFrom(digit: string, i: nat): (code: Option<nat>)
    requires i <= 16
    ensures code.Some? ==> code.value < 16 && digit == [DTMF_KEYS[code.value]]
    ensures code.None? ==> forall k :: i <= k < 16 ==> digit != [DTMF_KEYS[k]]
    decreases 16 - i
  {
    if i == 16 then None else if digit == [DTMF_KEYS[i]] then Some(i) else KeyFrom(digit, i + 1)
  }

  /** `int(durationMs * clockRate / 1000)` */
  function Samples(durationMs: int, clockRate: nat): int {
    var product := durationMs * clockRate;
    if product >= 0 then product / 1000 else 0 - (0 - product) / 1000
  }

  /** `(end << 7) | (volume & 0x3F)`, at the volume that is never changed */
  function EndOctet(end: bool): (b: byte)
    ensures b == (if end then 138 else 10)
  {
    EndBits(end);
    Or(Shl(if end then 1 else 0, 7), And(10, 0x3F))
  }

  lemma EndBits(end: bool)
    ensures Or(Shl(if end then 1 else 0, 7), And(10, 0x3F)) == if end then 138 else 10
  {
    hide And, Or, Shl, Low;
    var e, k, w := if end then 1 else 0, 6, 7;
    Pow2Small();
    AndMask(10, k);
    ShlSmall(0);
    JoinBits(10, 0, k);
    ShlZero(k);
    ShlSmall(e);
    OrCommutes(Shl(e, w), 10);
    OrDisjoint(10, e, w);
  }

  /** Event, end flag and volume, and a duration of 16 bits */
  function EventPayload(code: nat, end: bool, duration: int): Result<seq<byte>>
    requires code < 16
  {
    if 0 <= duration < 0x1_0000 then Ok([code, EndOctet(end)] + BigBytes(duration, 2)) else Err
  }

  /** `from_rtp_payload`: event, end flag, volume and duration */
  function ReadEvent(payload: seq<byte>): Option<(nat, bool, nat, nat)> {
    if |payload| < 4 then None
    else Some((payload[0], And(payload[1], 0x80) != 0, And(payload[1], 0x3F), BigEndian(payload[2..4])))
  }

  /** What a digit sends */
  function DtmfItems(code: nat, samples: int): seq<Item>
    requires code < 16
  {
    var start, ongoing, end := EventPayload(code, false, samples / 3), EventPayload(code, false, samples * 2 / 3),
                               EventPayload(code, true, samples);
    if start.Err? then []
    else if ongoing.Err? then [Dtmf(start.value, true)]
    else if end.Err? then [Dtmf(start.value, true), Dtmf(ongoing.value, false)]
    else [Dtmf(start.value, true), Dtmf(ongoing.value, false), Dtmf(end.value, false), Dtmf(end.value, false), Dtmf(end.value, false)]
  }

  /** An event's payload reads back as the event. */
  lemma EventArrives(code: nat, end: bool, duration: int)
    requires code < 16 && EventPayload(code, end, duration).Ok?
    ensures ReadEvent(EventPayload(code, end, duration).value) == Some((code, end, 10, duration))
  {
    hide Pow2, BigEndian, BigBytes, And, Bit;
    var payload := EventPayload(code, end, duration).value;
    var w, k := 7, 6;
    assert payload[2..4] == BigBytes(duration, 2);
    TwoOctetsHold(duration);
    OctetReads(payload[1], end, w, k);
  }

  lemma OctetReads(octet: byte, end: bool, w: nat, k: nat)
    requires octet == EndOctet(end) && w == 7 && k == 6
    ensures And(octet, 0x80) != 0 <==> end
    ensures And(octet, 0x3F) == 10
  {
    hide And, Or, Shl, Shr, Low, Bit, EndOctet;
    var e := if end then 1 else 0;
    Pow2Small();
    ShlSmall(e);
    JoinBits(10, e, w);
    BitShr(octet, w, 0);
    AndBit(octet, w);
    ShlSmall(2 * e);
    ShlSmall(8 * e);
    ShlShl(2 * e, 2, 4);
    JoinBits(10, 2 * e, k);
    AndMask(octet, k);
    OneBit(e);
  }

  lemma OneBit(e: nat)
    requires e < 2
    ensures Bit(e, 0) <==> e == 1
  {
  }

  /** Packet i of a session: consecutive numbers, and a clock that only audio advances. */
  function PacketAt(profile: Profile, items: seq<Item>, i: nat): Packet
    requires i < |items|
  {
    Packet(RTP_VERSION, false, false, 0, items[i].marker,
           if items[i].Audio? then profile.payloadType else PT_TELEPHONE_EVENT,
           i % 0x1_0000, AudioCount(items[..i]) * profile.samplesPerFrame % 0x1_0000_0000,
           profile.ssrc % 0x1_0000_0000, [],
           if items[i].Audio? then items[i].frame else items[i].event)
  }

  function Wire(profile: Profile, items: seq<Item>): (wire: seq<seq<byte>>)
    ensures |wire| == |items|
  {
    seq(|items|, i requires 0 <= i < |items| => WireAt(profile, items, i))
  }

  function WireAt(profile: Profile, items: seq<Item>, i: nat): seq<byte>
    requires i < |items|
  {
    VersionFits(PacketAt(profile, items, i));
    PacketBytes(PacketAt(profile, items, i)).value
  }

  lemma VersionFits(p: Packet)
    requires p.version == RTP_VERSION && !p.padding && !p.extension
    ensures PacketBytes(p).Ok?
  {
    RtpRoundTrip(p);
  }

  lemma SameWireAt(profile: Profile, items: seq<Item>, item: Item, i: nat)
    requires i < |items|
    ensures WireAt(profile, items + [item], i) == WireAt(profile, items, i)
  {
    hide PacketBytes, AudioCount;
    assert (items + [item])[..i] == items[..i];
  }

  lemma WireNext(profile: Profile, items: seq<Item>, item: Item)
    ensures Wire(profile, items + [item])
         == Wire(profile, items) + [WireAt(profile, items + [item], |items|)]
  {
    hide WireAt;
    forall i | 0 <= i < |items|
      ensures WireAt(profile, items + [item], i) == WireAt(profile, items, i)
    {
      SameWireAt(profile, items, item, i);
    }
  }

  /** Adding an item adds its packet to the wire and leaves the others. */
  lemma SendNext(profile: Profile, items: seq<Item>, item: Item)
    ensures var more := items + [item];
            && Wire(profile, more) == Wire(profile, items) + [WireAt(profile, more, |items|)]
            && AudioCount(more) == AudioCount(items) + (if item.Audio? then 1 else 0)
            && AudioCount(more[..|items|]) == AudioCount(items)
  {
    hide Wire, WireAt;
    WireNext(profile, items, item);
    assert (items + [item])[..|items|] == items;
  }

  // ---- Receiving ----------------------------------------------------------

  lemma NumberFits(data: seq<byte>)
    requires ParsePacket(data).Ok?
    ensures ParsePacket(data).value.sequenceNumber < 0x1_0000
  {
    BigEndianBound(data[2..4]);
    Pow2Large();
  }

  function EntryOf(data: seq<byte>): Entry
    requires ParsePacket(data).Ok?
  {
    NumberFits(data);
    var p := ParsePacket(data).value;
    Entry(p.sequenceNumber, p.timestamp, p.payload)
  }

  /** The jitter buffer after a datagram. */
  ghost function AfterReceive(cfg: Config, st: State, data: seq<byte>): State {
    if ParsePacket(data).Err? || ParsePacket(data).value.payloadType == PT_TELEPHONE_EVENT then st
    else AfterPut(cfg, st, EntryOf(data))
  }

  class MediaSession {
    const profile: Profile
    const jitterBuffer: JitterBuffer
    var active: bool
    var held: bool
    var direction: string
    var nextSeq: nat
    var timestamp: nat
    var packetsSent: nat
    var bytesSent: nat
    var packetsReceived: nat
    var bytesReceived: nat
    /** Datagrams handed to the transport. */
    var wire: seq<seq<byte>>
    ghost var items: seq<Item>

    constructor (profile: Profile)
      ensures Valid() && fresh(jitterBuffer) && this.profile == profile
      ensures items == [] && !active && !held
    {
      this.profile := profile;
      jitterBuffer := new JitterBuffer();
      active, held, direction := false, false, "sendrecv";
      nextSeq, timestamp, packetsSent, bytesSent, packetsReceived, bytesReceived := 0, 0, 0, 0, 0, 0;
      wire, items := [], [];
    }

    /** The session's numbers and datagrams are those of the items it was given. */
    ghost predicate Valid()
      reads this
    {
      && nextSeq == |items| == packetsSent
      && timestamp == AudioCount(items) * profile.samplesPerFrame
      && wire == Wire(profile, items)
    }

    method Hold()
      modifies this`held, this`direction
      ensures held == (active || old(held))
    {
      if !active {
        return;
      }
      held, direction := true, "sendonly";
    }

    method Resume()
      modifies this`held, this`direction
      ensures held == (!active && old(held))
    {
      if !active {
        return;
      }
      held, direction := false, "sendrecv";
    }

    method Transmit(packet: Packet)
      requires packet.version == RTP_VERSION && !packet.padding && !packet.extension
      modifies this`wire, this`packetsSent, this`bytesSent
      ensures PacketBytes(packet).Ok?
      ensures wire == old(wire) + [PacketBytes(packet).value]
      ensures packetsSent == old(packetsSent) + 1
    {
      VersionFits(packet);
      var raw := ToBytes(packet);
      wire := wire + [raw.value];
      packetsSent := packetsSent + 1;
      bytesSent := bytesSent + |raw.value|;
    }

    /** Sends one frame, unless the session is stopped or on hold. */
    method SendFrame(frame: seq<byte>, marker: bool)
      requires Valid()
      modifies this
      ensures Valid()
      ensures items == if active && !held then old(items) + [Audio(frame, marker)] else old(items)
      ensures active == old(active) && held == old(held)
    {
      hide PacketBytes;
      if !active || held {
        return;
      }
      var packet := Packet(RTP_VERSION, false, false, 0, marker, profile.payloadType,
        nextSeq % 0x1_0000, timestamp % 0x1_0000_0000, profile.ssrc % 0x1_0000_0000, [], frame);
      ghost var before := items;
      items := items + [Audio(frame, marker)];
      SendNext(profile, before, items[|before|]);
      nextSeq := nextSeq + 1;
      timestamp := timestamp + profile.samplesPerFrame;
      Transmit(packet);
    }

    /** Sends one telephone event: numbered like audio, but off its clock and whether held or not. */
    method SendDtmfPacket(event: seq<byte>, marker: bool)
      requires Valid()
      modifies this
      ensures Valid()
      ensures items == old(items) + [Dtmf(event, marker)]
      ensures active == old(active) && held == old(held)
    {
      hide PacketBytes;
      var packet := Packet(RTP_VERSION, false, false, 0, marker, PT_TELEPHONE_EVENT,
        nextSeq % 0x1_0000, timestamp % 0x1_0000_0000, profile.ssrc % 0x1_0000_0000, [], event);
      ghost var before := items;
      items := items + [Dtmf(event, marker)];
      SendNext(profile, before, items[|before|]);
      nextSeq := nextSeq + 1;
      Transmit(packet);
    }

    /**
     * A digit, for some milliseconds: the start, ongoing and end events, the last
     * three times, up to the first whose duration does not fit; other keys send nothing.
     */
    method SendDtmf(digit: string, durationMs: int, clockRate: nat)
      requires Valid()
      modifies this
      ensures Valid()
      ensures items == old(items) + (if EventCode(digit).Some? then DtmfItems(EventCode(digit).value, Samples(durationMs, clockRate)) else [])
      ensures active == old(active) && held == old(held)
    {
      hide EventPayload, Samples, MediaSession.Valid;
      var code := EventCode(digit);
      if code.None? {
        return;
      }
      var samples := Samples(durationMs, clockRate);
      var start := EventPayload(code.value, false, samples / 3);
      if start.Err? {
        return;
      }
      SendDtmfPacket(start.value, true);
      var ongoing := EventPayload(code.value, false, samples * 2 / 3);
      if ongoing.Err? {
        return;
      }
      SendDtmfPacket(ongoing.value, false);
      var end := EventPayload(code.value, true, samples);
      if end.Err? {
        return;
      }
      ghost var sent := items;
      for i := 0 to 3
        invariant Valid() && active == old(active) && held == old(held)
        invariant items == sent + seq(i, _ => Dtmf(end.value, false))
      {
        SendDtmfPacket(end.value, false);
      }
      assert seq(3, _ => Dtmf(end.value, false)) == [Dtmf(end.value, false), Dtmf(end.value, false), Dtmf(end.value, false)];
    }

    /** Audio goes to the jitter buffer; telephone events and malformed datagrams do not. */
    method OnRtpReceived(data: seq<byte>)
      requires |jitterBuffer.buffer| <= jitterBuffer.Cfg().capacity
      modifies this`packetsReceived, this`bytesReceived, jitterBuffer
      ensures jitterBuffer.View() == AfterReceive(jitterBuffer.Cfg(), old(jitterBuffer.View()), data)
      ensures packetsReceived == old(packetsReceived) + (if ParsePacket(data).Ok? then 1 else 0)
    {
      hide ParsePacket, AfterPut;
      var parsed := FromBytes(data);
      if parsed.Err? {
        return;
      }
      var packet := parsed.value;
      packetsReceived := packetsReceived + 1;
      bytesReceived := bytesReceived + |data|;
      if packet.payloadType == PT_TELEPHONE_EVENT {
        return;
      }
      NumberFits(data);
      var _ := jitterBuffer.Put(Entry(packet.sequenceNumber, packet.timestamp, packet.payload));
    }
  }

  // ---- The stream from end to end -----------------------------------------

  /** The far end takes the next datagram, or asks its jitter buffer for a frame. */
  datatype StreamEvent = Deliver | Play

  /** Datagrams delivered so far, the jitter buffer, and the frames it gave out. */
  datatype Stream = Stream(delivered: nat, st: State, out: seq<seq<byte>>)

  ghost function StreamStep(cfg: Config, wire: seq<seq<byte>>, s: Stream, event: StreamEvent): Stream {
    match event
    case Deliver =>
      if s.delivered >= |wire| then s
      else s.(delivered := s.delivered + 1, st := AfterReceive(cfg, s.st, wire[s.delivered]))
    case Play =>
      var (st, r) := AfterGet(cfg, s.st);
      s.(st := st, out := if r.Some? then s.out + [r.value] else s.out)
  }

  ghost function StreamAfter(cfg: Config, wire: seq<seq<byte>>, events: seq<StreamEvent>): Stream {
    if events == [] then Stream(0, State([], None, 0, 0, 0, 0, 0), [])
    else StreamStep(cfg, wire, StreamAfter(cfg, wire, events[..|events| - 1]), events[|events| - 1])
  }

  /** Every datagram finds room in the deque. */
  ghost predicate NeverFull(cfg: Config, wire: seq<seq<byte>>, events: seq<StreamEvent>) {
    forall n :: 0 <= n < |events| && events[n].Deliver? ==>
      |StreamAfter(cfg, wire, events[..n]).st.buffer| < cfg.capacity
  }

  function FirstAudio(items: seq<Item>): (a: nat)
    ensures a <= |items|
    ensures a < |items| ==> items[a].Audio?
    ensures forall i :: 0 <= i < a ==> items[i].Dtmf?
  {
    if items == [] || items[0].Audio? then 0 else 1 + FirstAudio(items[1..])
  }

  /** What a slot plays as: its frame, or for a telephone event the loss marker. */
  function SlotOutput(item: Item): seq<byte> {
    if item.Audio? then item.frame else []
  }

  /** The slots from the first audio packet on. */
  function Expected(items: seq<Item>): seq<seq<byte>> {
    var a := FirstAudio(items);
    seq(|items| - a, j requires 0 <= j < |items| - a => SlotOutput(items[a + j]))
  }

  function DtmfCount(items: seq<Item>): nat {
    if items == [] then 0
    else DtmfCount(items[..|items| - 1]) + (if items[|items| - 1].Dtmf? then 1 else 0)
  }

  /** An audio packet numbered lo to hi - 1 */
  ghost predicate AudioIn(items: seq<Item>, lo: nat, hi: nat) {
    exists j :: lo <= j < hi && j < |items| && items[j].Audio?
  }

  function EntryAt(profile: Profile, items: seq<Item>, i: nat): Entry
    requires i < |items|
  {
    var p := PacketAt(profile, items, i);
    Entry(p.sequenceNumber, p.timestamp, p.payload)
  }

  function AudioEntry(profile: Profile, items: seq<Item>, i: nat): seq<Entry>
    requires i < |items|
  {
    if items[i].Audio? then [EntryAt(profile, items, i)] else []
  }

  /** The audio packets numbered lo to hi - 1, as the jitter buffer stores them. */
  function AudioEntries(profile: Profile, items: seq<Item>, lo: nat, hi: nat): seq<Entry>
    requires hi <= |items|
  {
    if hi <= lo then []
    else AudioEntries(profile, items, lo, hi - 1) + AudioEntry(profile, items, hi - 1)
  }

  lemma {:induction false} EntriesInRange(profile: Profile, items: seq<Item>, lo: nat, hi: nat)
    requires hi <= |items| <= 0x8000
    ensures forall e :: e in AudioEntries(profile, items, lo, hi) ==>
              lo <= e.number < hi && items[e.number].Audio? && e == EntryAt(profile, items, e.number)
  {
    hide EntryAt, AudioEntry;
    if hi > lo {
      EntriesInRange(profile, items, lo, hi - 1);
      NumberOf(profile, items, hi - 1);
    }
  }

  lemma NumberOf(profile: Profile, items: seq<Item>, i: nat)
    requires i < |items| <= 0x8000
    ensures forall e :: e in AudioEntry(profile, items, i) ==>
              e.number == i && items[i].Audio? && e == EntryAt(profile, items, i)
  {
    hide AudioCount;
  }

  lemma {:induction false} EntriesHead(profile: Profile, items: seq<Item>, lo: nat, hi: nat)
    requires lo < hi <= |items|
    ensures AudioEntries(profile, items, lo, hi)
         == AudioEntry(profile, items, lo) + AudioEntries(profile, items, lo + 1, hi)
  {
    hide AudioEntry;
    if hi > lo + 1 {
      EntriesHead(profile, items, lo, hi - 1);
    } else {
      assert AudioEntries(profile, items, lo, lo) == [];
    }
  }

  /** A session's datagram, parsed at the far end. */
  lemma ReceiveItem(cfg: Config, st: State, profile: Profile, items: seq<Item>, i: nat)
    requires i < |items| && profile.payloadType < 128 && profile.payloadType != PT_TELEPHONE_EVENT
    ensures AfterReceive(cfg, st, WireAt(profile, items, i))
         == if items[i].Audio? then AfterPut(cfg, st, EntryAt(profile, items, i)) else st
  {
    hide PacketBytes, ParsePacket, AfterPut, AudioCount;
    RtpRoundTrip(PacketAt(profile, items, i));
  }

  /** A number above all others goes to the end of a deque with room. */
  lemma PutLast(cfg: Config, st: State, e: Entry)
    requires |st.buffer| < cfg.capacity
    requires forall x :: x in st.buffer ==> x.number < e.number
    ensures AfterPut(cfg, st, e)
         == st.(buffer := st.buffer + [e], received := st.received + 1,
                next := if st.next.None? then Some(e.number) else st.next)
  {
    var b := st.buffer;
    forall i | 0 <= i < |b|
      ensures b[i].number < e.number
    {
      assert b[i] in b;
    }
    PositionIs(b, e.number, |b|);
    assert Inserted(b, |b|, e) == b + [e];
  }

  /**
   * The far end after k datagrams: nothing before the first audio packet; then
   * exactly the audio not yet played, and the slots given out in order.
   */
  ghost predicate InStep(profile: Profile, items: seq<Item>, s: Stream) {
    var a, n, k := FirstAudio(items), FirstAudio(items) + |s.out|, s.delivered;
    && k <= |items|
    && if k <= a then s.st.buffer == [] && s.st.next.None? && s.out == [] && s.st.lost == 0
       else
         && n <= k && s.st.next == Some(n % 0x1_0000)
         && s.st.buffer == AudioEntries(profile, items, n, k)
         && s.out == Expected(items)[..|s.out|]
         && s.st.lost == DtmfCount(items[a..n])
         // nothing is given out past the last audio packet delivered
         && (s.out != [] ==> AudioIn(items, n - 1, k))
  }

  lemma DeliverKeeps(cfg: Config, profile: Profile, items: seq<Item>, s: Stream)
    requires |items| <= 0x8000 && profile.payloadType < 128 && profile.payloadType != PT_TELEPHONE_EVENT
    requires InStep(profile, items, s) && |s.st.buffer| < cfg.capacity
    ensures InStep(profile, items, StreamStep(cfg, Wire(profile, items), s, Deliver))
  {
    hide WireAt, EntryAt, AfterReceive, AfterPut, Expected, DtmfCount;
    var k, a, n := s.delivered, FirstAudio(items), FirstAudio(items) + |s.out|;
    if k < |items| {
      ReceiveItem(cfg, s.st, profile, items, k);
      EntriesInRange(profile, items, n, k);
      NumberAt(profile, items, k);
      if items[k].Audio? {
        PutLast(cfg, s.st, EntryAt(profile, items, k));
      }
      if k <= a {
        assert AudioEntries(profile, items, n, k) == [];
        NothingPlayed(items);
      }
    }
  }

  lemma NumberAt(profile: Profile, items: seq<Item>, i: nat)
    requires i < |items| <= 0x8000
    ensures EntryAt(profile, items, i).number == i
    ensures EntryAt(profile, items, i).payload == if items[i].Audio? then items[i].frame else items[i].event
  {
  }

  lemma NothingPlayed(items: seq<Item>)
    ensures Expected(items)[..0] == []
    ensures DtmfCount(items[FirstAudio(items)..FirstAudio(items)]) == 0
  {
  }

  lemma GetWaits(cfg: Config, st: State)
    requires |st.buffer| < cfg.target || st.buffer == []
    ensures AfterGet(cfg, st) == (st, None)
  {
  }

  /** A get whose front entry is at or ahead of the next slot. */
  lemma GetAhead(cfg: Config, st: State, n: Seq16)
    requires |st.buffer| >= cfg.target && st.buffer != [] && st.next == Some(n)
    requires n <= st.buffer[0].number <= n + 0x8000
    ensures AfterGet(cfg, st)
         == if st.buffer[0].number == n
            then (st.(buffer := st.buffer[1..], next := Some(Following(n)), played := st.played + 1),
                  Some(st.buffer[0].payload))
            else (st.(lost := st.lost + 1, next := Some(Following(n))), Some([]))
  {
  }

  /** The first entry from slot n on is slot n's, if that slot is audio. */
  lemma FrontEntry(profile: Profile, items: seq<Item>, n: nat, k: nat)
    requires k <= |items| <= 0x8000 && AudioEntries(profile, items, n, k) != []
    ensures var entries := AudioEntries(profile, items, n, k);
            && n < k && n <= entries[0].number <= n + 0x8000
            && (entries[0].number == n <==> items[n].Audio?)
            && (if items[n].Audio? then
                  entries[0].payload == items[n].frame && entries[1..] == AudioEntries(profile, items, n + 1, k)
                else entries == AudioEntries(profile, items, n + 1, k))
  {
    hide EntryAt, AudioEntries;
    var entries := AudioEntries(profile, items, n, k);
    NonEmptyRange(profile, items, n, k);
    EntriesInRange(profile, items, n, k);
    assert entries[0] in entries;
    EntriesHead(profile, items, n, k);
    NumberAt(profile, items, n);
    if !items[n].Audio? {
      EntriesInRange(profile, items, n + 1, k);
    }
  }

  lemma NonEmptyRange(profile: Profile, items: seq<Item>, n: nat, k: nat)
    requires k <= |items| && AudioEntries(profile, items, n, k) != []
    ensures n < k
  {
  }

  lemma SomeAudio(profile: Profile, items: seq<Item>, n: nat, k: nat)
    requires k <= |items| <= 0x8000 && AudioEntries(profile, items, n, k) != []
    ensures AudioIn(items, n, k)
  {
    hide EntryAt, AudioEntries;
    EntriesInRange(profile, items, n, k);
    assert AudioEntries(profile, items, n, k)[0] in AudioEntries(profile, items, n, k);
  }

  lemma PlayKeeps(cfg: Config, profile: Profile, items: seq<Item>, s: Stream)
    requires |items| <= 0x8000
    requires InStep(profile, items, s)
    ensures InStep(profile, items, StreamStep(cfg, Wire(profile, items), s, Play))
  {
    hide AudioEntries, Wire, DtmfCount, FirstAudio, Expected, AudioIn, AfterGet;
    var k, a, n := s.delivered, FirstAudio(items), FirstAudio(items) + |s.out|;
    if |s.st.buffer| >= cfg.target && s.st.buffer != [] {
      FrontEntry(profile, items, n, k);
      SomeAudio(profile, items, n, k);
      GetAhead(cfg, s.st, n);
      NextSlot(items, |s.out|);
    } else {
      GetWaits(cfg, s.st);
    }
  }

  /** Giving out slot a + j extends the prefix of the expected stream by one. */
  lemma NextSlot(items: seq<Item>, j: nat)
    requires FirstAudio(items) + j < |items|
    ensures var a := FirstAudio(items);
            && |Expected(items)| > j
            && Expected(items)[..j + 1] == Expected(items)[..j] + [SlotOutput(items[a + j])]
            && DtmfCount(items[a..a + j + 1]) == DtmfCount(items[a..a + j]) + (if items[a + j].Audio? then 0 else 1)
  {
    hide FirstAudio;
    DtmfNext(items, FirstAudio(items), j);
    TakeNext(Expected(items), j);
  }

  lemma DtmfNext(items: seq<Item>, a: nat, j: nat)
    requires a + j < |items|
    ensures DtmfCount(items[a..a + j + 1]) == DtmfCount(items[a..a + j]) + (if items[a + j].Audio? then 0 else 1)
  {
    var more := items[a..a + j + 1];
    assert more[..|more| - 1] == items[a..a + j];
  }

  /**
   * In-order, loss-free delivery through a deque that never fills, with frames
   * asked for at any time: what comes out is the sent audio in order from the
   * first frame on, with one loss marker for each telephone event in between.
   */
  lemma {:induction false} StreamInOrder(cfg: Config, profile: Profile, items: seq<Item>, events: seq<StreamEvent>)
    requires |items| <= 0x8000 && profile.payloadType < 128 && profile.payloadType != PT_TELEPHONE_EVENT
    requires NeverFull(cfg, Wire(profile, items), events)
    ensures InStep(profile, items, StreamAfter(cfg, Wire(profile, items), events))
  {
    hide InStep, StreamStep, Wire;
    var wire := Wire(profile, items);
    if events == [] {
      StreamStart(profile, items);
    } else {
      var before := events[..|events| - 1];
      assert forall n :: 0 <= n < |before| ==> before[..n] == events[..n];
      StreamInOrder(cfg, profile, items, before);
      match events[|events| - 1]
      case Deliver => DeliverKeeps(cfg, profile, items, StreamAfter(cfg, wire, before));
      case Play => PlayKeeps(cfg, profile, items, StreamAfter(cfg, wire, before));
    }
  }

  lemma StreamStart(profile: Profile, items: seq<Item>)
    ensures InStep(profile, items, Stream(0, State([], None, 0, 0, 0, 0, 0), []))
  {
  }

  /** The same, said of the output alone: it also stops at an audio packet that was delivered. */
  lemma StreamOutput(cfg: Config, profile: Profile, items: seq<Item>, events: seq<StreamEvent>)
    requires |items| <= 0x8000 && profile.payloadType < 128 && profile.payloadType != PT_TELEPHONE_EVENT
    requires NeverFull(cfg, Wire(profile, items), events)
    ensures var s := StreamAfter(cfg, Wire(profile, items), events);
            var a := FirstAudio(items);
            && s.out <= Expected(items)
            && (s.out != [] ==> AudioIn(items, a + |s.out| - 1, s.delivered))
            && s.st.lost == DtmfCount(items[a..a + |s.out|])
  {
    hide StreamAfter, DtmfCount, Wire;
    StreamInOrder(cfg, profile, items, events);
    NothingPlayed(items);
  }
}
