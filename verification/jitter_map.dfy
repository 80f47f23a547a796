/**
 * The jitter buffer as what it stands in for: a map from playout slot to payload.
 * As long as nothing buffered is 2^15 or more away from the next slot, every run of
 * the deque gives out what the map gives out.
 */
module JitterMap {
  import opened Bits
  import opened Jitter
  import opened Wrappers

  /** Payloads by slot, and the slot to play next. */
  datatype Slots = Slots(store: map<Seq16, seq<byte>>, next: Option<Seq16>)

  ghost function Lowest(keys: set<Seq16>): (k: Seq16)
    requires keys != {}
    ensures k in keys && forall j :: j in keys ==> k <= j
  {
    var x :| x in keys;
    if keys == {x} then x
    else
      var low := Lowest(keys - {x});
      assert forall j :: j in keys ==> j == x || j in keys - {x};
      if x < low then x else low
  }

  /** A new slot is stored; a full store gives up its lowest slot for a higher one, and takes no other. */
  ghost function StoreAfterPut(cfg: Config, store: map<Seq16, seq<byte>>, e: Entry): map<Seq16, seq<byte>> {
    if e.number in store then store
    else
      var more := store[e.number := e.payload];
      assert e.number in more.Keys;
      if |store| < cfg.capacity then more
      else if exists k :: k in store && k > e.number then store
      else more - {Lowest(more.Keys)}
  }

  ghost function SlotsAfterPut(cfg: Config, s: Slots, e: Entry): Slots {
    Slots(StoreAfterPut(cfg, s.store, e), if s.next.None? then Some(e.number) else s.next)
  }

  /** With enough stored, slots that are over are dropped; then the next slot plays, as loss if it is empty. */
  ghost function SlotsAfterGet(cfg: Config, s: Slots): (Slots, Option<seq<byte>>)
    decreases |s.store|
  {
    if |s.store| < cfg.target || s.store == map[] then (s, None)
    else
      var low := Lowest(s.store.Keys);
      var n := if s.next.Some? then s.next.value else low;
      if low < n then SlotsAfterGet(cfg, s.(store := s.store - {low}))
      else (Slots(s.store - {n}, Some(Following(n))), Some(if n in s.store then s.store[n] else []))
  }

  ghost function SlotsStep(cfg: Config, s: Slots, event: Event): (Slots, seq<seq<byte>>) {
    match event
    case Put(e) => (SlotsAfterPut(cfg, s, e), [])
    case Get =>
      var (s', r) := SlotsAfterGet(cfg, s);
      (s', if r.Some? then [r.value] else [])
    case Reset => (Slots(map[], None), [])
  }

  /** The map machine after a run, and all it gave out */
  ghost function SlotsAfter(cfg: Config, events: seq<Event>): (Slots, seq<seq<byte>>) {
    if events == [] then (Slots(map[], None), [])
    else
      var (s, out) := SlotsAfter(cfg, events[..|events| - 1]);
      var (s', more) := SlotsStep(cfg, s, events[|events| - 1]);
      (s', out + more)
  }

  /** All the deque gave out */
  ghost function Output(cfg: Config, events: seq<Event>): seq<seq<byte>> {
    if events == [] then []
    else
      var before := events[..|events| - 1];
      var r := AfterGet(cfg, After(cfg, before).st).1;
      Output(cfg, before) + if events[|events| - 1].Get? && r.Some? then [r.value] else []
  }

  // ---- A sorted deque as a map --------------------------------------------

  function MapOf(buffer: seq<Entry>): map<Seq16, seq<byte>> {
    if buffer == [] then map[] else MapOf(buffer[1..])[buffer[0].number := buffer[0].payload]
  }

  ghost predicate Represents(store: map<Seq16, seq<byte>>, buffer: seq<Entry>) {
    && (forall i :: 0 <= i < |buffer| ==> buffer[i].number in store && store[buffer[i].number] == buffer[i].payload)
    && (forall k :: k in store ==> Holds(buffer, k))
  }

  lemma SameStore(a: map<Seq16, seq<byte>>, b: map<Seq16, seq<byte>>, buffer: seq<Entry>)
    requires Represents(a, buffer) && Represents(b, buffer)
    ensures a == b
  {
    forall k | k in a || k in b
      ensures k in a && k in b && a[k] == b[k]
    {
      assert Holds(buffer, k);
    }
    assert a.Keys == b.Keys;
  }

  /** An entry in front of a deque of higher numbers */
  lemma ConsRepresents(store: map<Seq16, seq<byte>>, e: Entry, rest: seq<Entry>)
    requires Represents(store, rest) && forall i :: 0 <= i < |rest| ==> e.number < rest[i].number
    ensures e.number !in store && Represents(store[e.number := e.payload], [e] + rest)
  {
    var all := [e] + rest;
    assert forall i :: 1 <= i < |all| ==> all[i] == rest[i - 1];
    assert all[0] == e;
    forall k | k in store
      ensures k != e.number && Holds(all, k)
    {
      assert Holds(rest, k);
      var i :| 0 <= i < |rest| && rest[i].number == k;
      assert all[i + 1].number == k;
    }
  }

  lemma {:induction false} MapRepresents(buffer: seq<Entry>)
    requires StrictlySorted(buffer)
    ensures Represents(MapOf(buffer), buffer) && |MapOf(buffer)| == |buffer|
  {
    hide Represents;
    if buffer == [] {
      EmptyRepresents();
    } else {
      var rest := buffer[1..];
      assert buffer == [buffer[0]] + rest;
      MapRepresents(rest);
      ConsRepresents(MapOf(rest), buffer[0], rest);
    }
  }

  lemma EmptyRepresents()
    ensures Represents(map[], [])
  {
  }

  /** The front of the deque is the lowest slot. */
  lemma FrontIsLowest(buffer: seq<Entry>)
    requires StrictlySorted(buffer) && buffer != []
    ensures var store, front := MapOf(buffer), buffer[0];
            && front.number in store && store[front.number] == front.payload
            && (forall k :: k in store ==> front.number <= k)
            && store.Keys != {} && Lowest(store.Keys) == front.number
            && store - {front.number} == MapOf(buffer[1..])
    ensures StrictlySorted(buffer[1..])
  {
    hide Represents, MapOf, Holds;
    var store, front, rest := MapOf(buffer), buffer[0], buffer[1..];
    MapRepresents(buffer);
    MapRepresents(rest);
    UseRepresents(store, buffer);
    ConsRepresents(MapOf(rest), front, rest);
    assert buffer == [front] + rest;
    SameStore(store, MapOf(rest)[front.number := front.payload], buffer);
  }

  lemma UseRepresents(store: map<Seq16, seq<byte>>, buffer: seq<Entry>)
    requires Represents(store, buffer) && StrictlySorted(buffer) && buffer != []
    ensures buffer[0].number in store && store[buffer[0].number] == buffer[0].payload
    ensures forall k :: k in store ==> buffer[0].number <= k
  {
    forall k | k in store
      ensures buffer[0].number <= k
    {
      assert Holds(buffer, k);
    }
  }

  // ---- Put ----------------------------------------------------------------

  lemma InsertedRepresents(buffer: seq<Entry>, i: nat, e: Entry)
    requires StrictlySorted(buffer) && i <= |buffer| && !Holds(buffer, e.number)
    ensures Represents(MapOf(buffer)[e.number := e.payload], Inserted(buffer, i, e))
  {
    hide MapOf, StrictlySorted;
    MapRepresents(buffer);
    var store, after := MapOf(buffer)[e.number := e.payload], Inserted(buffer, i, e);
    forall j | 0 <= j < |after|
      ensures after[j].number in store && store[after[j].number] == after[j].payload
    {
      InsertedAt(buffer, i, e, j);
      assert j != i ==> Holds(buffer, after[j].number);
    }
    forall k | k in store
      ensures Holds(after, k)
    {
      if k == e.number {
        InsertedAt(buffer, i, e, i);
      } else {
        assert Holds(buffer, k);
        var j :| 0 <= j < |buffer| && buffer[j].number == k;
        InsertedAt(buffer, i, e, if j < i then j else j + 1);
      }
    }
  }

  lemma InsertedAt(buffer: seq<Entry>, i: nat, e: Entry, j: nat)
    requires i <= |buffer| && j <= |buffer|
    ensures Inserted(buffer, i, e)[j] == if j < i then buffer[j] else if j == i then e else buffer[j - 1]
  {
  }

  lemma PutRefines(cfg: Config, buffer: seq<Entry>, e: Entry)
    requires StrictlySorted(buffer) && |buffer| <= cfg.capacity
    ensures MapOf(BufferAfterPut(cfg, buffer, e)) == StoreAfterPut(cfg, MapOf(buffer), e)
  {
    hide MapOf, Position, Represents;
    var after, i := BufferAfterPut(cfg, buffer, e), Position(buffer, e.number);
    MapRepresents(buffer);
    PutSorted(cfg, buffer, e);
    MapRepresents(after);
    HoldsKey(buffer, e.number);
    match FateOf(cfg, buffer, e)
    case Duplicate =>
    case Kept =>
      InsertedRepresents(buffer, i, e);
      SameStore(MapOf(after), MapOf(buffer)[e.number := e.payload], after);
    case Refused =>
      assert Holds(buffer, buffer[i].number);
      HoldsKey(buffer, buffer[i].number);
    case Evicting =>
      EvictRefines(buffer, e);
  }

  lemma HoldsKey(buffer: seq<Entry>, k: Seq16)
    requires StrictlySorted(buffer)
    ensures Holds(buffer, k) <==> k in MapOf(buffer)
  {
    MapRepresents(buffer);
  }

  /** A full deque with a new highest number: the front makes room. */
  lemma EvictRefines(buffer: seq<Entry>, e: Entry)
    requires StrictlySorted(buffer) && !Holds(buffer, e.number) && Position(buffer, e.number) == |buffer|
    ensures var more := MapOf(buffer)[e.number := e.payload];
            && e.number in more.Keys
            && MapOf((buffer + [e])[1..]) == more - {Lowest(more.Keys)}
            && !exists k :: k in MapOf(buffer) && k > e.number
  {
    hide MapOf, Represents, Position;
    var all := buffer + [e];
    forall k | 0 <= k < |buffer|
      ensures buffer[k].number < e.number
    {
      assert buffer[k].number <= e.number && buffer[k].number != e.number;
    }
    assert StrictlySorted(all);
    InsertedRepresents(buffer, |buffer|, e);
    assert Inserted(buffer, |buffer|, e) == all;
    MapRepresents(all);
    SameStore(MapOf(all), MapOf(buffer)[e.number := e.payload], all);
    FrontIsLowest(all);
    forall k | k in MapOf(buffer)
      ensures k <= e.number
    {
      HoldsKey(buffer, k);
    }
  }

  // ---- Get ----------------------------------------------------------------

  /** Everything buffered is within 2^15 of the next slot, on the raw scale. */
  ghost predicate InWindow(s: Slots) {
    s.next.Some? ==> forall k :: k in s.store ==> -0x8000 < k - s.next.value < 0x8000
  }

  lemma AheadInWindow(a: Seq16, n: Seq16)
    requires -0x8000 < a - n < 0x8000
    ensures (Ahead(a, n) > 0x8000 <==> a < n) && (Ahead(a, n) == 0 <==> a == n)
  {
  }

  lemma NotThere(store: map<Seq16, seq<byte>>, n: Seq16)
    requires n !in store
    ensures store - {n} == store
  {
  }

  lemma WindowLess(s: Slots, k: Seq16)
    requires InWindow(s)
    ensures InWindow(s.(store := s.store - {k}))
  {
  }

  lemma {:induction false} GetRefines(cfg: Config, st: State)
    requires StrictlySorted(st.buffer) && (st.buffer != [] ==> st.next.Some?)
    requires InWindow(Slots(MapOf(st.buffer), st.next))
    ensures var (st', r) := AfterGet(cfg, st);
            SlotsAfterGet(cfg, Slots(MapOf(st.buffer), st.next)) == (Slots(MapOf(st'.buffer), st'.next), r)
    decreases |st.buffer|
  {
    hide MapOf, StrictlySorted, Following, Represents, Lowest, Holds, Ahead, InWindow;
    var slots := Slots(MapOf(st.buffer), st.next);
    MapRepresents(st.buffer);
    if st.buffer == [] {
      NothingStored();
    } else if |st.buffer| >= cfg.target {
      FrontIsLowest(st.buffer);
      var front, n := st.buffer[0], st.next.value;
      WindowAt(slots, front.number);
      AheadInWindow(front.number, n);
      if front.number < n {
        WindowLess(slots, front.number);
        GetRefines(cfg, st.(buffer := st.buffer[1..], late := st.late + 1));
      } else if n < front.number {
        NotThere(slots.store, n);
      }
    }
  }

  lemma WindowAt(s: Slots, k: Seq16)
    requires InWindow(s) && k in s.store && s.next.Some?
    ensures -0x8000 < k - s.next.value < 0x8000
  {
  }

  lemma NothingStored()
    ensures MapOf([]) == map[]
  {
  }

  // ---- Every run ----------------------------------------------------------

  /** Every get of the run finds the map within its window. */
  ghost predicate NoWrap(cfg: Config, events: seq<Event>) {
    forall n :: 0 <= n < |events| && events[n].Get? ==> InWindow(SlotsAfter(cfg, events[..n]).0)
  }

  /** On every run that does not wrap, the deque gives out what the map gives out, and holds what it holds. */
  lemma {:induction false} RefinesMap(cfg: Config, events: seq<Event>)
    requires NoWrap(cfg, events)
    ensures var st := After(cfg, events).st;
            SlotsAfter(cfg, events) == (Slots(MapOf(st.buffer), st.next), Output(cfg, events))
  {
    hide MapOf, AfterGet, BufferAfterPut, StoreAfterPut, SlotsAfterGet, InWindow, StrictlySorted, FateOf;
    if events == [] {
      NothingStored();
    } else {
      var before, last := events[..|events| - 1], events[|events| - 1];
      assert forall n :: 0 <= n < |before| ==> before[..n] == events[..n];
      RefinesMap(cfg, before);
      EveryRun(cfg, before);
      var st := After(cfg, before).st;
      match last
      case Put(e) => PutRefines(cfg, st.buffer, e);
      case Get => GetRefines(cfg, st);
      case Reset => NothingStored();
    }
  }
}
