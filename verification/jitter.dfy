/**
 * The jitter buffer: a bounded deque sorted by raw sequence number that stands
 * in for a map from playout slot to payload.
 */
module Jitter {
  import opened Bits
  import opened Wrappers

  type Seq16 = x: int | 0 <= x < 0x1_0000

  datatype Entry = Entry(number: Seq16, timestamp: nat, payload: seq<byte>)

  /** Deque capacity and the depth below which nothing is played. */
  datatype Config = Config(capacity: nat, target: int)

  datatype State = State(
    buffer: seq<Entry>,
    next: Option<Seq16>,
    received: nat,
    played: nat,
    lost: nat,
    late: nat,
    duplicate: nat)

  // ---- What put and get do ------------------------------------------------

  ghost predicate Holds(buffer: seq<Entry>, s: Seq16) {
    exists i :: 0 <= i < |buffer| && buffer[i].number == s
  }

  ghost predicate StrictlySorted(buffer: seq<Entry>) {
    forall i, j :: 0 <= i < j < |buffer| ==> buffer[i].number < buffer[j].number
  }

  /** Where a number goes: before the first greater one. */
  function Position(buffer: seq<Entry>, s: Seq16): (i: nat)
    ensures i <= |buffer|
    ensures forall k :: 0 <= k < i ==> buffer[k].number <= s
    ensures i < |buffer| ==> buffer[i].number > s
  {
    if buffer == [] then 0
    else if buffer[0].number > s then 0
    else 1 + Position(buffer[1..], s)
  }

  /** What became of a packet offered to the buffer. */
  datatype Fate = Duplicate | Kept | Evicting | Refused

  ghost function FateOf(cfg: Config, buffer: seq<Entry>, e: Entry): Fate {
    if Holds(buffer, e.number) then Duplicate
    else if |buffer| < cfg.capacity then Kept
    else if Position(buffer, e.number) < |buffer| then Refused
    else Evicting
  }

  /** Appending to a full deque drops its front; with no room at all, the newcomer. */
  function Appended(cfg: Config, buffer: seq<Entry>, e: Entry): seq<Entry> {
    if |buffer| < cfg.capacity then buffer + [e]
    else (buffer + [e])[1..]
  }

  function Inserted(buffer: seq<Entry>, i: nat, e: Entry): seq<Entry>
    requires i <= |buffer|
  {
    buffer[..i] + [e] + buffer[i..]
  }

  ghost function BufferAfterPut(cfg: Config, buffer: seq<Entry>, e: Entry): seq<Entry> {
    match FateOf(cfg, buffer, e)
    case Duplicate => buffer
    case Refused => buffer
    case Kept => Inserted(buffer, Position(buffer, e.number), e)
    case Evicting => Appended(cfg, buffer, e)
  }

  ghost function AfterPut(cfg: Config, st: State, e: Entry): State {
    st.(buffer := BufferAfterPut(cfg, st.buffer, e),
        next := if st.next.None? then Some(e.number) else st.next,
        received := st.received + 1,
        duplicate := st.duplicate + (if FateOf(cfg, st.buffer, e).Duplicate? then 1 else 0))
  }

  /** `(a - b) & 0xFFFF` */
  function Ahead(a: Seq16, b: Seq16): (d: Seq16)
    ensures d == (if a >= b then a - b else a - b + 0x1_0000)
  {
    (a - b) % 0x1_0000
  }

  function Following(s: Seq16): Seq16 {
    (s + 1) % 0x1_0000
  }

  function AfterGet(cfg: Config, st: State): (r: (State, Option<seq<byte>>))
    ensures r.0.played >= st.played && r.0.lost >= st.lost && r.0.late >= st.late
    decreases |st.buffer|
  {
    if |st.buffer| < cfg.target || st.buffer == [] then (st, None)
    else
      var front := st.buffer[0];
      if st.next.Some? && Ahead(front.number, st.next.value) > 0x8000 then
        AfterGet(cfg, st.(buffer := st.buffer[1..], late := st.late + 1))
      else if st.next.Some? && Ahead(front.number, st.next.value) > 0 then
        (st.(lost := st.lost + 1, next := Some(Following(st.next.value))), Some([]))
      else
        (st.(buffer := st.buffer[1..], next := Some(Following(front.number)), played := st.played + 1),
         Some(front.payload))
  }

  function AfterReset(st: State): State {
    st.(buffer := [], next := None)
  }

  // ---- The object ---------------------------------------------------------

  class JitterBuffer {
    const minDepth: int
    const maxDepth: nat
    const targetDepth: int
    var buffer: seq<Entry>
    var nextSeq: Option<Seq16>
    var packetsReceived: nat
    var packetsPlayed: nat
    var packetsLost: nat
    var packetsLate: nat
    var packetsDuplicate: nat

    constructor (minDepth: int := 2, maxDepth: nat := 10, targetDepth: int := 4)
      ensures Cfg() == Config(2 * maxDepth, targetDepth)
      ensures View() == State([], None, 0, 0, 0, 0, 0)
    {
      this.minDepth, this.maxDepth, this.targetDepth := minDepth, maxDepth, targetDepth;
      buffer, nextSeq := [], None;
      packetsReceived, packetsPlayed, packetsLost, packetsLate, packetsDuplicate := 0, 0, 0, 0, 0;
    }

    function Cfg(): Config {
      Config(2 * maxDepth, targetDepth)
    }

    ghost function View(): State
      reads this
    {
      State(buffer, nextSeq, packetsReceived, packetsPlayed, packetsLost, packetsLate, packetsDuplicate)
    }

    /** Not `accepted` is the deque's IndexError: an insertion in the middle of a full deque. */
    method Put(entry: Entry) returns (accepted: bool)
      requires |buffer| <= Cfg().capacity
      modifies this
      ensures View() == AfterPut(Cfg(), old(View()), entry)
      ensures accepted == !FateOf(Cfg(), old(buffer), entry).Refused?
    {
      hide Position, Inserted, Appended;
      packetsReceived := packetsReceived + 1;
      if nextSeq.None? {
        nextSeq := Some(entry.number);
      }
      var isDuplicate := FindNumber(entry.number);
      if isDuplicate {
        packetsDuplicate := packetsDuplicate + 1;
        return true;
      }
      accepted := InsertSorted(entry);
    }

    method FindNumber(s: Seq16) returns (found: bool)
      ensures found == Holds(buffer, s)
    {
      for i := 0 to |buffer|
        invariant forall k :: 0 <= k < i ==> buffer[k].number != s
      {
        if buffer[i].number == s {
          return true;
        }
      }
      found := false;
    }

    method InsertSorted(entry: Entry) returns (accepted: bool)
      requires |buffer| <= Cfg().capacity && !Holds(buffer, entry.number)
      modifies this`buffer
      ensures buffer == BufferAfterPut(Cfg(), old(buffer), entry)
      ensures accepted == !FateOf(Cfg(), old(buffer), entry).Refused?
    {
      for i := 0 to |buffer|
        invariant forall k :: 0 <= k < i ==> buffer[k].number <= entry.number
        invariant buffer == old(buffer)
      {
        if buffer[i].number > entry.number {
          PositionIs(buffer, entry.number, i);
          if |buffer| >= 2 * maxDepth {
            return false;
          }
          buffer := Inserted(buffer, i, entry);
          return true;
        }
      }
      PositionIs(buffer, entry.number, |buffer|);
      assert Inserted(buffer, |buffer|, entry) == buffer + [entry];
      buffer := Appended(Cfg(), buffer, entry);
      accepted := true;
    }

    method Get() returns (r: Option<seq<byte>>)
      modifies this
      ensures (View(), r) == AfterGet(Cfg(), old(View()))
      decreases |buffer|
    {
      if |buffer| < targetDepth || buffer == [] {
        return None;
      }
      var front := buffer[0];
      if nextSeq.Some? {
        var diff := Ahead(front.number, nextSeq.value);
        if diff > 0x8000 {
          buffer := buffer[1..];
          packetsLate := packetsLate + 1;
          r := Get();
          return;
        } else if diff > 0 {
          packetsLost := packetsLost + 1;
          nextSeq := Some(Following(nextSeq.value));
          return Some([]);
        }
      }
      buffer := buffer[1..];
      nextSeq := Some(Following(front.number));
      packetsPlayed := packetsPlayed + 1;
      r := Some(front.payload);
    }

    method Reset()
      modifies this
      ensures View() == AfterReset(old(View()))
    {
      buffer := [];
      nextSeq := None;
    }
  }

  lemma {:induction false} PositionIs(buffer: seq<Entry>, s: Seq16, i: nat)
    requires i <= |buffer|
    requires forall k :: 0 <= k < i ==> buffer[k].number <= s
    requires i < |buffer| ==> buffer[i].number > s
    ensures Position(buffer, s) == i
  {
    if i > 0 {
      PositionIs(buffer[1..], s, i - 1);
    }
  }

  // ---- Every run ----------------------------------------------------------

  datatype Event = Put(entry: Entry) | Get | Reset

  /**
   * A run so far: the buffer, what the full deque turned away, what a reset
   * dropped, and what happened since the last reset.
   */
  datatype Run = Run(
    st: State,
    evicted: nat,
    refused: nat,
    cleared: nat,
    first: Option<Seq16>,
    playedSince: nat,
    lostSince: nat)

  const START: Run := Run(State([], None, 0, 0, 0, 0, 0), 0, 0, 0, None, 0, 0)

  ghost function Step(cfg: Config, run: Run, event: Event): Run {
    match event
    case Put(e) =>
      var fate := FateOf(cfg, run.st.buffer, e);
      run.(st := AfterPut(cfg, run.st, e),
           evicted := run.evicted + (if fate.Evicting? then 1 else 0),
           refused := run.refused + (if fate.Refused? then 1 else 0),
           first := if run.first.None? then Some(e.number) else run.first)
    case Get =>
      var st := AfterGet(cfg, run.st).0;
      run.(st := st,
           playedSince := run.playedSince + (st.played - run.st.played),
           lostSince := run.lostSince + (st.lost - run.st.lost))
    case Reset =>
      run.(st := AfterReset(run.st), cleared := run.cleared + |run.st.buffer|,
           first := None, playedSince := 0, lostSince := 0)
  }

  ghost function After(cfg: Config, events: seq<Event>): Run {
    if events == [] then START
    else Step(cfg, After(cfg, events[..|events| - 1]), events[|events| - 1])
  }

  /** What holds of the buffer after every event. */
  ghost predicate Invariant(cfg: Config, run: Run) {
    var st := run.st;
    && StrictlySorted(st.buffer)
    && |st.buffer| <= cfg.capacity
    && (st.buffer != [] ==> st.next.Some?)
    // every packet received is accounted for
    && st.received == st.duplicate + st.late + st.played + |st.buffer| + run.evicted + run.refused + run.cleared
    // the next slot is as many past the first as were played or lost
    && (st.next.Some? <==> run.first.Some?)
    && (run.first.None? ==> run.playedSince == 0 && run.lostSince == 0)
    && (st.next.Some? ==> st.next.value == (run.first.value + run.playedSince + run.lostSince) % 0x1_0000)
  }

  lemma PutSorted(cfg: Config, buffer: seq<Entry>, e: Entry)
    requires StrictlySorted(buffer) && |buffer| <= cfg.capacity
    ensures var after := BufferAfterPut(cfg, buffer, e);
            && StrictlySorted(after)
            && |after| <= cfg.capacity
            && |after| == |buffer| + (if FateOf(cfg, buffer, e).Kept? then 1 else 0)
  {
    var i := Position(buffer, e.number);
    if !Holds(buffer, e.number) {
      forall k | 0 <= k < i
        ensures buffer[k].number < e.number
      {
        assert buffer[k].number != e.number;
      }
    }
  }

  /** A put that keeps the packet loses none; one on a full deque loses its lowest or the newcomer. */
  lemma PutContents(cfg: Config, buffer: seq<Entry>, e: Entry)
    requires StrictlySorted(buffer) && |buffer| <= cfg.capacity
    ensures var after := multiset(BufferAfterPut(cfg, buffer, e));
            match FateOf(cfg, buffer, e)
            case Duplicate => after == multiset(buffer)
            case Kept => after == multiset(buffer) + multiset{e}
            case Evicting => after + multiset{(buffer + [e])[0]} == multiset(buffer) + multiset{e}
            case Refused => after == multiset(buffer) && e.number < buffer[|buffer| - 1].number
  {
    hide StrictlySorted, Holds, Position;
    var i := Position(buffer, e.number);
    match FateOf(cfg, buffer, e)
    case Duplicate =>
    case Kept => InsertedContents(buffer, i, e);
    case Evicting => AllButFirst(buffer + [e]);
    case Refused => LastAbove(buffer, e.number, i);
  }

  lemma InsertedContents(buffer: seq<Entry>, i: nat, e: Entry)
    requires i <= |buffer|
    ensures multiset(Inserted(buffer, i, e)) == multiset(buffer) + multiset{e}
  {
    assert buffer == buffer[..i] + buffer[i..];
  }

  lemma AllButFirst(all: seq<Entry>)
    requires all != []
    ensures multiset(all[1..]) + multiset{all[0]} == multiset(all)
  {
    assert all == [all[0]] + all[1..];
  }

  lemma LastAbove(buffer: seq<Entry>, s: Seq16, i: nat)
    requires StrictlySorted(buffer) && i < |buffer| && buffer[i].number > s
    ensures buffer[|buffer| - 1].number > s
  {
  }

  /**
   * One get: `dropped` late packets leave from the front, then at most one slot is
   * emitted, as a loss or from an entry that carries the slot's number.
   */
  ghost predicate GetShape(st: State, st': State, r: Option<seq<byte>>, dropped: nat, taken: nat)
    requires st.buffer != [] ==> st.next.Some?
  {
    && dropped + taken <= |st.buffer| && taken <= 1
    && st' == st.(buffer := st.buffer[dropped + taken..], next := st'.next, late := st.late + dropped,
                  played := st.played + taken, lost := st.lost + (if r.Some? then 1 - taken else 0))
    && (forall i :: 0 <= i < dropped ==> Ahead(st.buffer[i].number, st.next.value) > 0x8000)
    && match r
       case None => taken == 0 && st'.next == st.next
       case Some(payload) =>
         && dropped < |st.buffer| && st'.next == Some(Following(st.next.value))
         && (if taken == 1 then st.buffer[dropped] == Entry(st.next.value, st.buffer[dropped].timestamp, payload)
             else payload == [] && 0 < Ahead(st.buffer[dropped].number, st.next.value) <= 0x8000)
  }

  lemma DropLate(st: State, st': State, r: Option<seq<byte>>, d: nat, taken: nat)
    requires st.buffer != [] && st.next.Some? && Ahead(st.buffer[0].number, st.next.value) > 0x8000
    requires GetShape(st.(buffer := st.buffer[1..], late := st.late + 1), st', r, d, taken)
    ensures GetShape(st, st', r, d + 1, taken)
  {
    hide Ahead, Following;
    var rest := st.buffer[1..];
    assert rest[d + taken..] == st.buffer[d + 1 + taken..];
    assert forall i :: 1 <= i < |st.buffer| ==> st.buffer[i] == rest[i - 1];
  }

  lemma {:induction false} GetStep(cfg: Config, st: State) returns (dropped: nat, taken: nat)
    requires st.buffer != [] ==> st.next.Some?
    ensures GetShape(st, AfterGet(cfg, st).0, AfterGet(cfg, st).1, dropped, taken)
    decreases |st.buffer|
  {
    hide Ahead, Following;
    if |st.buffer| < cfg.target || st.buffer == [] {
      dropped, taken := 0, 0;
    } else if Ahead(st.buffer[0].number, st.next.value) > 0x8000 {
      var rest := st.(buffer := st.buffer[1..], late := st.late + 1);
      var d, t := GetStep(cfg, rest);
      dropped, taken := d + 1, t;
      DropLate(st, AfterGet(cfg, rest).0, AfterGet(cfg, rest).1, d, t);
    } else if Ahead(st.buffer[0].number, st.next.value) > 0 {
      dropped, taken := 0, 0;
    } else {
      dropped, taken := 0, 1;
    }
  }

  lemma PutKeeps(cfg: Config, run: Run, e: Entry)
    requires Invariant(cfg, run)
    ensures Invariant(cfg, Step(cfg, run, Put(e)))
  {
    hide StrictlySorted, BufferAfterPut, FateOf;
    PutSorted(cfg, run.st.buffer, e);
  }

  lemma SuffixSorted(buffer: seq<Entry>, n: nat)
    requires StrictlySorted(buffer) && n <= |buffer|
    ensures StrictlySorted(buffer[n..])
  {
  }

  lemma GetKeeps(cfg: Config, run: Run)
    requires Invariant(cfg, run)
    ensures Invariant(cfg, Step(cfg, run, Get))
  {
    hide StrictlySorted, AfterGet, Ahead;
    var dropped, taken := GetStep(cfg, run.st);
    SuffixSorted(run.st.buffer, dropped + taken);
  }

  lemma StepKeeps(cfg: Config, run: Run, event: Event)
    requires Invariant(cfg, run)
    ensures Invariant(cfg, Step(cfg, run, event))
  {
    hide Invariant, Step;
    match event
    case Put(e) => PutKeeps(cfg, run, e);
    case Get => GetKeeps(cfg, run);
    case Reset => ResetKeeps(cfg, run);
  }

  lemma ResetKeeps(cfg: Config, run: Run)
    requires Invariant(cfg, run)
    ensures Invariant(cfg, Step(cfg, run, Reset))
  {
  }

  /** Sortedness, slot arithmetic and conservation, on every run, wrap-around included. */
  lemma {:induction false} EveryRun(cfg: Config, events: seq<Event>)
    ensures Invariant(cfg, After(cfg, events))
  {
    if events != [] {
      EveryRun(cfg, events[..|events| - 1]);
      StepKeeps(cfg, After(cfg, events[..|events| - 1]), events[|events| - 1]);
    }
  }

  // ---- The buffer as a map ------------------------------------------------

  ghost predicate Stores(buffer: seq<Entry>, s: Seq16, payload: seq<byte>) {
    exists i :: 0 <= i < |buffer| && buffer[i].number == s && buffer[i].payload == payload
  }

  /**
   * A get that emits gives the payload stored under its slot, or the loss marker
   * when there is none, unless a number 2^15 or more below the slot is still in
   * front of it: exactly then a stored payload is passed over as lost.
   */
  lemma GetEmitsSlot(cfg: Config, st: State, payload: seq<byte>)
    requires StrictlySorted(st.buffer) && st.next.Some?
    requires AfterGet(cfg, st).1.Some?
    ensures !Holds(st.buffer, st.next.value) ==>
              AfterGet(cfg, st).1 == Some([]) && AfterGet(cfg, st).0.lost == st.lost + 1
    ensures Stores(st.buffer, st.next.value, payload) ==>
              && st.buffer != []
              && (AfterGet(cfg, st).0.played == st.played + 1 && AfterGet(cfg, st).1 == Some(payload)
                  <==> st.next.value - st.buffer[0].number < 0x8000)
  {
    var d, taken := GetStep(cfg, st);
    var n := st.next.value;
    if Stores(st.buffer, n, payload) {
      var i :| 0 <= i < |st.buffer| && st.buffer[i].number == n && st.buffer[i].payload == payload;
      assert d <= i;
      assert d == i || st.buffer[d].number < n;
    }
  }

  /**
   * While no buffered number is 2^15 or more away from the next slot on the raw
   * scale, an emission leaves the entries above its slot and nothing else.
   */
  lemma GetLeavesRest(cfg: Config, st: State)
    requires StrictlySorted(st.buffer) && st.next.Some?
    requires forall i :: 0 <= i < |st.buffer| ==> -0x8000 < st.buffer[i].number - st.next.value < 0x8000
    ensures var (st', r) := AfterGet(cfg, st);
            && (forall e :: e in st'.buffer ==> e in st.buffer)
            && (r.None? ==> forall e :: e in st.buffer && e.number >= st.next.value ==> e in st'.buffer)
            && (r.Some? ==> forall e :: e in st.buffer ==> (e in st'.buffer <==> e.number > st.next.value))
  {
    hide AfterGet, Following;
    var d, taken := GetStep(cfg, st);
    var n := st.next.value;
    var (st', r) := AfterGet(cfg, st);
    var gone := d + taken;
    forall e | e in st.buffer
      ensures e in st'.buffer || e in st.buffer[..gone]
    {
      var i :| 0 <= i < |st.buffer| && st.buffer[i] == e;
      if i < gone {
        assert st.buffer[..gone][i] == e;
      } else {
        assert st'.buffer[i - gone] == e;
      }
    }
    if r.Some? {
      forall i | gone <= i < |st.buffer|
        ensures st.buffer[i].number > n
      {
        assert d == i || st.buffer[d].number < st.buffer[i].number;
      }
    }
  }

  /** Raw order is not slot order: after 65535 and then 0, a get reports slot 65535 as lost though it is stored. */
  lemma WrapHidesSlot()
    ensures var cfg, first, second := Config(20, 2), Entry(65535, 0, [2]), Entry(0, 0, [1]);
            var st := After(cfg, [Put(first), Put(second)]).st;
            st.next == Some(65535) && Stores(st.buffer, 65535, [2]) && AfterGet(cfg, st).1 == Some([])
  {
    hide AfterPut, AfterGet;
    var cfg, first, second := Config(20, 2), Entry(65535, 0, [2]), Entry(0, 0, [1]);
    FirstPut(cfg, START.st, first);
    var one := AfterPut(cfg, START.st, first);
    PutInFront(cfg, one, second);
    assert [Put(first), Put(second)][..1] == [Put(first)] && [Put(first)][..0] == [];
    assert After(cfg, [Put(first)]).st == one;
    var two := After(cfg, [Put(first), Put(second)]).st;
    assert two == AfterPut(cfg, one, second);
    assert two.buffer[1].number == 65535 && two.buffer[1].payload == [2];
    FrontAhead(cfg, two);
  }

  lemma FirstPut(cfg: Config, st: State, e: Entry)
    requires st.buffer == [] && st.next.None? && cfg.capacity > 0
    ensures AfterPut(cfg, st, e).buffer == [e] && AfterPut(cfg, st, e).next == Some(e.number)
  {
    assert Position(st.buffer, e.number) == 0;
  }

  lemma PutInFront(cfg: Config, st: State, e: Entry)
    requires |st.buffer| == 1 && st.buffer[0].number > e.number && cfg.capacity > 1
    ensures AfterPut(cfg, st, e).buffer == [e] + st.buffer && (st.next.Some? ==> AfterPut(cfg, st, e).next == st.next)
  {
    assert Position(st.buffer, e.number) == 0;
  }

  lemma FrontAhead(cfg: Config, st: State)
    requires |st.buffer| >= 2 && cfg.target == 2 && st.next == Some(65535) && st.buffer[0].number == 0
    ensures AfterGet(cfg, st).1 == Some([])
  {
  }
}
